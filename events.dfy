/** The Kubernetes event that kopf posts for an object
    (kopf/clients/events.py): the namespace fallback, the message cut to the
    size the API accepts, and the event body. The API call itself is not
    modelled. */
module Events {
  import opened Dicts
  import opened Numerals
  import opened Nested

  const MaxMessageLength: nat := 1024
  const CutMessageInfix: string := "..."

  /** `MAX_MESSAGE_LENGTH // 2 - (len(infix) // 2)`: how many leading
      characters survive the cut. */
  function PrefixLength(): nat
  {
    MaxMessageLength / 2 - |CutMessageInfix| / 2
  }

  /** Minus the slice start `-MAX_MESSAGE_LENGTH // 2 + (len(infix) -
      len(infix) // 2)`: how many trailing characters survive. Python's `//`
      floors, which for the divisor 2 agrees with Dafny's `/`. */
  function SuffixLength(): nat
  {
    -((-(MaxMessageLength as int)) / 2 + (|CutMessageInfix| - |CutMessageInfix| / 2))
  }

  /** The message as posted: unchanged up to the limit, otherwise its head,
      the infix and its tail, exactly at the limit. */
  function Truncated(message: string): (r: string)
    ensures |r| <= MaxMessageLength
    ensures |message| <= MaxMessageLength ==> r == message
    ensures |message| > MaxMessageLength ==>
      && |r| == MaxMessageLength
      && r[..511] == message[..511]
      && r[511..514] == "..."
      && r[514..] == message[|message| - 510..]
  {
    if |message| > MaxMessageLength then
      message[..PrefixLength()] + CutMessageInfix + message[|message| - SuffixLength()..]
    else message
  }

  /** A posted message is never cut again. */
  lemma TruncatedIdempotent(message: string)
    ensures Truncated(Truncated(message)) == Truncated(message)
  {
  }

  /** `ref.get('namespace') or cfg.namespace`: the object's namespace when
      it has a truthy one, the configured namespace otherwise (cluster-scoped
      objects). */
  function EventNamespace(ref: map<string, Value>, configured: string): (ns: Value)
    ensures Truthy(ns) || configured == ""
    ensures ns == Get(ref, "namespace") || ns == Str(configured)
    ensures Truthy(Get(ref, "namespace")) ==> ns == Get(ref, "namespace")
    ensures !Truthy(Get(ref, "namespace")) ==> ns == Str(configured)
  {
    if Truthy(Get(ref, "namespace")) then Get(ref, "namespace") else Str(configured)
  }

  /** The event body: `metadata` with the namespace and the generated-name
      prefix, the fixed action and reporting fields, the type, reason and
      message, the object it is about, and one timestamp three times. */
  function EventBody(namespace: Value, eventType: string, reason: string, text: string,
                     involved: map<string, Value>, stamp: Value): map<string, Value>
  {
    map[
      "metadata" := Map(map["namespace" := namespace, "generateName" := Str("kopf-event-")]),
      "action" := Str("Action?"),
      "type" := Str(eventType),
      "reason" := Str(reason),
      "message" := Str(text),
      "reportingComponent" := Str("kopf"),
      "reportingInstance" := Str("dev"),
      "source" := Map(map["component" := Str("kopf")]),
      "involvedObject" := Map(involved),
      "firstTimestamp" := stamp,
      "lastTimestamp" := stamp,
      "eventTime" := stamp
    ]
  }

  /** The event body has exactly these twelve keys. */
  lemma EventBodyKeys(namespace: Value, eventType: string, reason: string, text: string,
                      involved: map<string, Value>, stamp: Value)
    ensures EventBody(namespace, eventType, reason, text, involved, stamp).Keys ==
      {"metadata", "action", "type", "reason", "message", "reportingComponent",
       "reportingInstance", "source", "involvedObject", "firstTimestamp", "lastTimestamp", "eventTime"}
  {
  }

  /** The event is about the object referenced, with the namespace set to the
      one the event itself is created in. */
  lemma EventBodyObject(namespace: Value, eventType: string, reason: string, text: string,
                        ref: map<string, Value>, stamp: Value)
    ensures var b := EventBody(namespace, eventType, reason, text, ref["namespace" := namespace], stamp);
      && b["metadata"] == Map(map["namespace" := namespace, "generateName" := Str("kopf-event-")])
      && b["involvedObject"] == Map(ref["namespace" := namespace])
      && b["involvedObject"].entries["namespace"] == b["metadata"].entries["namespace"] == namespace
  {
  }

  /** The event carries the type, the reason and the message given, and the
      fixed action and reporting fields. */
  lemma EventBodyFields(namespace: Value, eventType: string, reason: string, text: string,
                        involved: map<string, Value>, stamp: Value)
    ensures var b := EventBody(namespace, eventType, reason, text, involved, stamp);
      && b["type"] == Str(eventType) && b["reason"] == Str(reason) && b["message"] == Str(text)
      && b["action"] == Str("Action?")
      && b["reportingComponent"] == Str("kopf") && b["reportingInstance"] == Str("dev")
      && b["source"] == Map(map["component" := Str("kopf")])
  {
  }

  /** The three timestamps of the event are one and the same. */
  lemma EventBodyTimestamps(namespace: Value, eventType: string, reason: string, text: string,
                            involved: map<string, Value>, stamp: Value)
    ensures var b := EventBody(namespace, eventType, reason, text, involved, stamp);
      b["firstTimestamp"] == b["lastTimestamp"] == b["eventTime"] == stamp
  {
  }

  /** The event body posted for `ref`, at the moment `now`: the namespace
      chosen by `EventNamespace`, the message as `Truncated` cuts it, and the
      moment written as text with a `Z`. The reference is copied before its
      namespace is set, so the caller's is left as it was. */
  method BuildEventBody(ref: Dict, eventType: string, reason: string, message: string,
                        configuredNamespace: string, now: int) returns (body: map<string, Value>)
    ensures var ns := EventNamespace(ref.items, configuredNamespace);
      body == EventBody(ns, eventType, reason, Truncated(message), ref.items["namespace" := ns],
                        Str(IntToString(now) + "Z"))
  {
    var namespace := EventNamespace(ref.items, configuredNamespace);
    var fullRef := new Dict(ref.items);
    fullRef.items := fullRef.items["namespace" := namespace];

    var text := message;
    if |text| > MaxMessageLength {
      var infix := CutMessageInfix;
      var prefix := text[..PrefixLength()];
      var suffix := text[|text| - SuffixLength()..];
      text := prefix + infix + suffix;
    }

    var stamp := Str(IntToString(now) + "Z");
    body := EventBody(namespace, eventType, reason, text, fullRef.items, stamp);
  }
}
