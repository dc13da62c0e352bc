/** The per-handler progress records kept in `status.kopf.progress` of a
    resource body (kopf/structs/progress.py): the predicates that read them,
    and the writers that record changes into the patch.

    Time is an explicit `now` in whole seconds. A timestamp is stored as the
    decimal text of its seconds, written by `TimeText` and read back by
    `ParseTime`, where the operator writes and parses ISO-8601 text. */
module Progress {
  import opened Wrappers
  import opened Dicts
  import opened Numerals
  import opened Nested
  import opened MergePatch

  const KopfPath: FieldPath := ["status", "kopf"]
  const ProgressPath: FieldPath := ["status", "kopf", "progress"]

  /** Where the record of one handler lives. */
  function EntryPath(id: string): FieldPath
  {
    ProgressPath + [id]
  }

  /** `body.get('status', {}).get('kopf', {}).get('progress', {})` */
  function ProgressOf(body: map<string, Value>): map<string, Value>
  {
    AtPath(body, ProgressPath)
  }

  /** `progress.get(handler.id, {})` */
  function EntryOf(body: map<string, Value>, id: string): map<string, Value>
  {
    AtPath(body, EntryPath(id))
  }

  /** `is_started`: the handler has a record at all. */
  predicate IsStarted(body: map<string, Value>, id: string)
  {
    id in ProgressOf(body)
  }

  /** `is_finished`: the record's `success` or `failure` is truthy. */
  predicate IsFinished(body: map<string, Value>, id: string)
  {
    Truthy(Get(EntryOf(body, id), "success")) || Truthy(Get(EntryOf(body, id), "failure"))
  }

  /** The text stored for the moment `t`. */
  function TimeText(t: int): (s: string)
    ensures s != []
  {
    IntToString(t)
  }

  /** `datetime.fromisoformat` failing on a stored value. */
  datatype TimeError = InvalidTimestamp(value: Value)

  /** `None if value is None else datetime.datetime.fromisoformat(value)` */
  function ParseTime(v: Value): Result<Option<int>, TimeError>
  {
    if v == Null then Success(None)
    else if v.Str? && ParseInt(v.s).Some? then Success(Some(ParseInt(v.s).value))
    else Failure(InvalidTimestamp(v))
  }

  /** A stored timestamp reads back as the moment that was stored. */
  lemma ParseTimeText(t: int)
    ensures ParseTime(Str(TimeText(t))) == Success(Some(t))
  {
    ParseIntToString(t);
  }

  /** `get_awake_time` */
  function GetAwakeTime(body: map<string, Value>, id: string): Result<Option<int>, TimeError>
  {
    ParseTime(Get(EntryOf(body, id), "delayed"))
  }

  /** `is_sleeping`: not finished, and awake only later than `now`. The awake
      time is read first, so an unreadable one fails even when finished. */
  function IsSleeping(body: map<string, Value>, id: string, now: int): Result<bool, TimeError>
  {
    match GetAwakeTime(body, id)
    case Failure(e) => Failure(e)
    case Success(ts) => Success(!IsFinished(body, id) && ts.Some? && ts.value > now)
  }

  /** `is_awakened`: neither finished nor sleeping. */
  function IsAwakened(body: map<string, Value>, id: string, now: int): Result<bool, TimeError>
  {
    match IsSleeping(body, id, now)
    case Failure(e) => Failure(e)
    case Success(sleeping) => Success(!IsFinished(body, id) && !sleeping)
  }

  /** A handler whose awake time can be read is in exactly one of the states
      finished, sleeping and awakened; sleeping means not finished with an
      awake time after `now`. An unreadable awake time makes both queries
      fail. */
  lemma ExactlyOneState(body: map<string, Value>, id: string, now: int)
    ensures GetAwakeTime(body, id).Failure? <==> IsSleeping(body, id, now).Failure?
    ensures GetAwakeTime(body, id).Failure? <==> IsAwakened(body, id, now).Failure?
    ensures GetAwakeTime(body, id).Success? ==>
      var finished, sleeping, awakened := IsFinished(body, id),
        IsSleeping(body, id, now).value, IsAwakened(body, id, now).value;
      && (finished || sleeping || awakened)
      && !(finished && sleeping) && !(finished && awakened) && !(sleeping && awakened)
      && (sleeping <==> !finished && exists t :: GetAwakeTime(body, id) == Success(Some(t)) && t > now)
  {
  }

  /** `get_start_time`: the patch's `started` if truthy, else the body's. */
  function GetStartTime(body: map<string, Value>, patch: map<string, Value>, id: string): Result<Option<int>, TimeError>
  {
    var newValue := Get(EntryOf(patch, id), "started");
    var oldValue := Get(EntryOf(body, id), "started");
    ParseTime(if Truthy(newValue) then newValue else oldValue)
  }

  /** `get_retry_count`: the stored count, 0 when there is none. */
  function GetRetryCount(body: map<string, Value>, id: string): (r: Value)
    ensures "retries" !in EntryOf(body, id) ==> r == Int(0)
  {
    var entry := EntryOf(body, id);
    if "retries" in entry then entry["retries"] else Int(0)
  }

  /** The keys each writer puts into the handler's record. */
  function StartedUpdate(now: int): map<string, Value>
  {
    map["started" := Str(TimeText(now))]
  }

  function AwakeUpdate(now: int, delay: Option<int>): map<string, Value>
  {
    map["delayed" := if delay.Some? then Str(TimeText(now + delay.value)) else Null]
  }

  function RetryUpdate(retries: int): map<string, Value>
  {
    map["retries" := Int(retries)]
  }

  function FailureUpdate(now: int, retries: int, message: string): map<string, Value>
  {
    map["stopped" := Str(TimeText(now)), "failure" := Bool(true),
        "retries" := Int(retries), "message" := Str(message)]
  }

  function SuccessUpdate(now: int, retries: int): map<string, Value>
  {
    map["stopped" := Str(TimeText(now)), "success" := Bool(true),
        "retries" := Int(retries), "message" := Null]
  }

  /** `set_start_time` */
  method SetStartTime(patch: Dict, id: string, now: int)
    requires Writable(patch.items, EntryPath(id))
    modifies patch
    ensures patch.items == UpdateAt(old(patch.items), EntryPath(id), StartedUpdate(now))
  {
    patch.items := UpdateAt(patch.items, EntryPath(id), StartedUpdate(now));
  }

  /** `set_awake_time`: `delayed` is `now + delay`, or `None` without a delay. */
  method SetAwakeTime(patch: Dict, id: string, now: int, delay: Option<int>)
    requires Writable(patch.items, EntryPath(id))
    modifies patch
    ensures patch.items == UpdateAt(old(patch.items), EntryPath(id), AwakeUpdate(now, delay))
  {
    var ts: Value;
    if delay.Some? {
      ts := Str(TimeText(now + delay.value));
    } else {
      ts := Null;
    }
    patch.items := UpdateAt(patch.items, EntryPath(id), map["delayed" := ts]);
  }

  /** `set_retry_time`: one more retry than the body records, then the awake
      time. The stored count must be a number for `retry + 1` to work. */
  method SetRetryTime(body: map<string, Value>, patch: Dict, id: string, now: int, delay: Option<int>)
    requires GetRetryCount(body, id).Int?
    requires Writable(patch.items, EntryPath(id))
    modifies patch
    ensures patch.items == UpdateAt(old(patch.items), EntryPath(id),
      RetryUpdate(GetRetryCount(body, id).i + 1) + AwakeUpdate(now, delay))
  {
    patch.items := UpdateAt(patch.items, EntryPath(id), RetryUpdate(GetRetryCount(body, id).i + 1));
    SetAwakeTime(patch, id, now, delay);
    UpdateAtTwice(old(patch.items), EntryPath(id), RetryUpdate(GetRetryCount(body, id).i + 1), AwakeUpdate(now, delay));
  }

  /** `store_failure`: stopped, failed, one more retry, and the message. */
  method StoreFailure(body: map<string, Value>, patch: Dict, id: string, now: int, message: string)
    requires GetRetryCount(body, id).Int?
    requires Writable(patch.items, EntryPath(id))
    modifies patch
    ensures patch.items == UpdateAt(old(patch.items), EntryPath(id),
      FailureUpdate(now, GetRetryCount(body, id).i + 1, message))
  {
    patch.items := UpdateAt(patch.items, EntryPath(id), FailureUpdate(now, GetRetryCount(body, id).i + 1, message));
  }

  /** `store_success`: stopped, succeeded, one more retry, no message; and a
      result, when there is one, merged into `status[handler.id]`. */
  method StoreSuccess(body: map<string, Value>, patch: Dict, id: string, now: int, result: Option<map<string, Value>>)
    requires GetRetryCount(body, id).Int?
    requires Writable(patch.items, EntryPath(id))
    requires result.Some? ==> Writable(UpdateAt(patch.items, EntryPath(id),
      SuccessUpdate(now, GetRetryCount(body, id).i + 1)), ["status", id])
    modifies patch
    ensures var recorded := UpdateAt(old(patch.items), EntryPath(id), SuccessUpdate(now, GetRetryCount(body, id).i + 1));
      patch.items == if result.Some? then UpdateAt(recorded, ["status", id], result.value) else recorded
  {
    patch.items := UpdateAt(patch.items, EntryPath(id), SuccessUpdate(now, GetRetryCount(body, id).i + 1));
    if result.Some? {
      patch.items := UpdateAt(patch.items, ["status", id], result.value);
    }
  }

  /** `get_stored_digest`: reads `status.kopf.digest`, creating the empty
      `status` and `kopf` levels in the body on the way. */
  method GetStoredDigest(body: Dict) returns (digest: Value)
    requires Writable(body.items, KopfPath)
    modifies body
    ensures digest == Get(AtPath(old(body.items), KopfPath), "digest")
    ensures body.items == UpdateAt(old(body.items), KopfPath, map[])
  {
    body.items := UpdateAt(body.items, KopfPath, map[]);
    digest := Get(AtPath(body.items, KopfPath), "digest");
  }

  /** `set_stored_digest` */
  method SetStoredDigest(patch: Dict, digest: Value)
    requires Writable(patch.items, KopfPath)
    modifies patch
    ensures patch.items == UpdateAt(old(patch.items), KopfPath, map["digest" := digest])
  {
    patch.items := UpdateAt(patch.items, KopfPath, map["digest" := digest]);
  }

  /** `purge_progress`: the whole progress is set to `None`, then the digest. */
  method PurgeProgress(patch: Dict, digest: Value)
    requires Writable(patch.items, KopfPath)
    modifies patch
    ensures patch.items == UpdateAt(old(patch.items), KopfPath, map["progress" := Null, "digest" := digest])
  {
    patch.items := UpdateAt(patch.items, KopfPath, map["progress" := Null]);
    patch.items := UpdateAt(patch.items, KopfPath, map["digest" := digest]);
    UpdateAtTwice(old(patch.items), KopfPath, map["progress" := Null], map["digest" := digest]);
    PurgeUpdates(digest);
  }

  lemma PurgeUpdates(digest: Value)
    ensures map["progress" := Null] + map["digest" := digest] == map["progress" := Null, "digest" := digest]
  {
  }

  /** The record of the body patched at `id` is the body's record merged with
      what the patch holds there. */
  lemma EntryAfterApply(body: map<string, Value>, patch: map<string, Value>, id: string, updates: map<string, Value>)
    requires Writable(patch, EntryPath(id))
    ensures EntryOf(Apply(body, UpdateAt(patch, EntryPath(id), updates)), id)
      == MergeMaps(EntryOf(body, id), Map(EntryOf(patch, id) + updates))
  {
    ApplyAt(body, UpdateAt(patch, EntryPath(id), updates), EntryPath(id));
  }

  /** Writing a handler's record leaves every other handler's record alone. */
  lemma OtherEntriesUnchanged(patch: map<string, Value>, id: string, updates: map<string, Value>, other: string)
    requires Writable(patch, EntryPath(id)) && other != id
    ensures EntryOf(UpdateAt(patch, EntryPath(id), updates), other) == EntryOf(patch, other)
  {
    var p, q := EntryPath(id), EntryPath(other);
    assert p[3] != q[3];
    UpdateAtFrame(patch, p, updates, q);
  }

  /** After `set_start_time` the start time is read from the patch, whatever
      the body says, and the patched body shows the handler as started. */
  lemma SetStartTimeRoundTrip(body: map<string, Value>, patch: map<string, Value>, id: string, now: int)
    requires Writable(patch, EntryPath(id))
    ensures GetStartTime(body, UpdateAt(patch, EntryPath(id), StartedUpdate(now)), id) == Success(Some(now))
    ensures IsStarted(Apply(body, UpdateAt(patch, EntryPath(id), StartedUpdate(now))), id)
  {
    var p := UpdateAt(patch, EntryPath(id), StartedUpdate(now));
    assert Get(EntryOf(p, id), "started") == Str(TimeText(now));
    ParseTimeText(now);
    EntryAfterApply(body, patch, id, StartedUpdate(now));
    var merged := Apply(body, p);
    assert "started" in EntryOf(merged, id);
    AtPathChild(merged, ProgressPath, id);
  }

  /** Without a `started` in the patch, the start time is the body's. */
  lemma StartTimeFromBody(body: map<string, Value>, patch: map<string, Value>, id: string, t: int)
    requires "started" !in EntryOf(patch, id)
    requires Get(EntryOf(body, id), "started") == Str(TimeText(t))
    ensures GetStartTime(body, patch, id) == Success(Some(t))
  {
    ParseTimeText(t);
  }

  /** The record part of `set_retry_time`, read back from the patched body. */
  lemma RetryRecorded(body: map<string, Value>, patch: map<string, Value>, id: string, now: int, n: int, delay: Option<int>)
    requires Writable(patch, EntryPath(id))
    ensures var written := EntryOf(patch, id) + (RetryUpdate(n) + AwakeUpdate(now, delay));
      var e := MergeMaps(EntryOf(body, id), Map(written));
      && EntryOf(Apply(body, UpdateAt(patch, EntryPath(id), RetryUpdate(n) + AwakeUpdate(now, delay))), id) == e
      && Get(e, "retries") == Int(n)
      && Get(e, "delayed") == if delay.Some? then Str(TimeText(now + delay.value)) else Null
  {
    var written := EntryOf(patch, id) + (RetryUpdate(n) + AwakeUpdate(now, delay));
    EntryAfterApply(body, patch, id, RetryUpdate(n) + AwakeUpdate(now, delay));
    assert written["retries"] == Int(n);
    MergeSetsScalar(EntryOf(body, id), written, "retries");
    if delay.Some? {
      assert written["delayed"] == Str(TimeText(now + delay.value));
      MergeSetsScalar(EntryOf(body, id), written, "delayed");
    } else {
      assert written["delayed"] == Null;
      MergeRemovesNull(EntryOf(body, id), written, "delayed");
    }
  }

  /** After `set_retry_time` the patched body records one more retry than
      before, the awake time `now + delay` (none without a delay), and so is
      sleeping at `now` exactly when unfinished with a positive delay. */
  lemma SetRetryTimeRoundTrip(body: map<string, Value>, patch: map<string, Value>, id: string, now: int, delay: Option<int>)
    requires GetRetryCount(body, id).Int?
    requires Writable(patch, EntryPath(id))
    ensures var merged := Apply(body, UpdateAt(patch, EntryPath(id),
      RetryUpdate(GetRetryCount(body, id).i + 1) + AwakeUpdate(now, delay)));
      && GetRetryCount(merged, id) == Int(GetRetryCount(body, id).i + 1)
      && GetAwakeTime(merged, id) == Success(if delay.Some? then Some(now + delay.value) else None)
      && IsSleeping(merged, id, now) == Success(!IsFinished(merged, id) && delay.Some? && delay.value > 0)
  {
    var n := GetRetryCount(body, id).i + 1;
    RetryRecorded(body, patch, id, now, n, delay);
    if delay.Some? {
      ParseTimeText(now + delay.value);
    }
  }

  /** The record part of `store_failure`, read back from the patched body. */
  lemma FailureRecorded(body: map<string, Value>, patch: map<string, Value>, id: string, now: int, n: int, message: string)
    requires Writable(patch, EntryPath(id))
    ensures var written := EntryOf(patch, id) + FailureUpdate(now, n, message);
      var e := MergeMaps(EntryOf(body, id), Map(written));
      && EntryOf(Apply(body, UpdateAt(patch, EntryPath(id), FailureUpdate(now, n, message))), id) == e
      && Get(e, "failure") == Bool(true)
      && Get(e, "retries") == Int(n)
      && Get(e, "message") == Str(message)
  {
    var written := EntryOf(patch, id) + FailureUpdate(now, n, message);
    EntryAfterApply(body, patch, id, FailureUpdate(now, n, message));
    assert written["failure"] == Bool(true) && written["retries"] == Int(n) && written["message"] == Str(message);
    MergeSetsScalar(EntryOf(body, id), written, "failure");
    MergeSetsScalar(EntryOf(body, id), written, "retries");
    MergeSetsScalar(EntryOf(body, id), written, "message");
  }

  /** After `store_failure` the patched body shows the handler as finished,
      with one more retry and the failure message. */
  lemma StoreFailureRoundTrip(body: map<string, Value>, patch: map<string, Value>, id: string, now: int, message: string)
    requires GetRetryCount(body, id).Int?
    requires Writable(patch, EntryPath(id))
    ensures var merged := Apply(body, UpdateAt(patch, EntryPath(id),
      FailureUpdate(now, GetRetryCount(body, id).i + 1, message)));
      && IsFinished(merged, id)
      && GetRetryCount(merged, id) == Int(GetRetryCount(body, id).i + 1)
      && Get(EntryOf(merged, id), "message") == Str(message)
  {
    FailureRecorded(body, patch, id, now, GetRetryCount(body, id).i + 1, message);
  }

  /** The record part of `store_success`, read back from the patched body. */
  lemma SuccessRecorded(body: map<string, Value>, patch: map<string, Value>, id: string, now: int, n: int)
    requires Writable(patch, EntryPath(id))
    ensures var written := EntryOf(patch, id) + SuccessUpdate(now, n);
      EntryOf(Apply(body, UpdateAt(patch, EntryPath(id), SuccessUpdate(now, n))), id)
        == MergeMaps(EntryOf(body, id), Map(written))
      && Truthy(Get(MergeMaps(EntryOf(body, id), Map(written)), "success"))
      && Get(MergeMaps(EntryOf(body, id), Map(written)), "retries") == Int(n)
      && Get(MergeMaps(EntryOf(body, id), Map(written)), "message") == Null
  {
    var written := EntryOf(patch, id) + SuccessUpdate(now, n);
    EntryAfterApply(body, patch, id, SuccessUpdate(now, n));
    assert written["success"] == Bool(true) && written["retries"] == Int(n) && written["message"] == Null;
    MergeSetsScalar(EntryOf(body, id), written, "success");
    MergeSetsScalar(EntryOf(body, id), written, "retries");
    MergeRemovesNull(EntryOf(body, id), written, "message");
  }

  /** After `store_success` the patched body shows the handler as finished,
      with one more retry and no message; the result's keys are in the
      patch's `status[handler.id]`. This needs an id other than `kopf`: for
      that id the result is written over kopf's own `status.kopf`. */
  lemma StoreSuccessRoundTrip(body: map<string, Value>, patch: map<string, Value>, id: string, now: int,
                              result: map<string, Value>)
    requires GetRetryCount(body, id).Int?
    requires Writable(patch, EntryPath(id))
    requires id != "kopf"
    requires Writable(UpdateAt(patch, EntryPath(id), SuccessUpdate(now, GetRetryCount(body, id).i + 1)), ["status", id])
    ensures var recorded := UpdateAt(patch, EntryPath(id), SuccessUpdate(now, GetRetryCount(body, id).i + 1));
      var p := UpdateAt(recorded, ["status", id], result);
      var merged := Apply(body, p);
      && IsFinished(merged, id)
      && GetRetryCount(merged, id) == Int(GetRetryCount(body, id).i + 1)
      && Get(EntryOf(merged, id), "message") == Null
      && AtPath(p, ["status", id]) == AtPath(recorded, ["status", id]) + result
  {
    var n := GetRetryCount(body, id).i + 1;
    var recorded := UpdateAt(patch, EntryPath(id), SuccessUpdate(now, n));
    var p := UpdateAt(recorded, ["status", id], result);
    assert EntryPath(id)[1] == "kopf";
    UpdateAtFrame(recorded, ["status", id], result, EntryPath(id));
    assert Resolve(Map(p), EntryPath(id)) == Resolve(Map(recorded), EntryPath(id));
    ApplyAt(body, p, EntryPath(id));
    ApplyAt(body, recorded, EntryPath(id));
    assert EntryOf(Apply(body, p), id) == EntryOf(Apply(body, recorded), id);
    SuccessRecorded(body, patch, id, now, n);
  }

  /** After `purge_progress` the patched body has no progress, so no handler
      is started, and holds the given digest (`None` meaning none). */
  lemma PurgeProgressRoundTrip(body: map<string, Value>, patch: map<string, Value>, digest: Value, id: string)
    requires Writable(patch, KopfPath)
    requires digest.Null? || digest.Str?
    ensures var merged := Apply(body, UpdateAt(patch, KopfPath, map["progress" := Null, "digest" := digest]));
      && ProgressOf(merged) == map[]
      && !IsStarted(merged, id)
      && Get(AtPath(merged, KopfPath), "digest") == digest
  {
    var u := map["progress" := Null, "digest" := digest];
    var p := UpdateAt(patch, KopfPath, u);
    var written := AtPath(patch, KopfPath) + u;
    ApplyAt(body, p, KopfPath);
    var merged := Apply(body, p);
    var kopf := AtPath(merged, KopfPath);
    assert kopf == MergeMaps(AtPath(body, KopfPath), Map(written));
    assert written["progress"] == Null;
    MergeRemovesNull(AtPath(body, KopfPath), written, "progress");
    if digest.Null? {
      assert written["digest"] == Null;
      MergeRemovesNull(AtPath(body, KopfPath), written, "digest");
    } else {
      assert written["digest"] == digest;
      MergeSetsScalar(AtPath(body, KopfPath), written, "digest");
    }
    assert KopfPath + ["progress"] == ProgressPath;
    if ProgressOf(merged) != map[] {
      AtPathChild(merged, KopfPath, "progress");
      assert false;
    }
    assert !IsStarted(merged, id);
    assert Get(kopf, "digest") == digest;
  }

  /** What `set_stored_digest` writes, `get_stored_digest` reads back from the
      patched body. */
  lemma StoredDigestRoundTrip(body: map<string, Value>, patch: map<string, Value>, digest: Value)
    requires Writable(patch, KopfPath)
    requires digest.Null? || digest.Str?
    ensures Get(AtPath(Apply(body, UpdateAt(patch, KopfPath, map["digest" := digest])), KopfPath), "digest") == digest
  {
    ApplyAt(body, UpdateAt(patch, KopfPath, map["digest" := digest]), KopfPath);
  }
}
