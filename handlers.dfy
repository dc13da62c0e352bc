/** The handler records and causes that the registries store and match
    (as used by kopf/reactor/registries.py). Callbacks are abstract: each
    has an identity, and what it returns when called is given by `Calls`. */
module Handlers {
  import opened Wrappers
  import opened Dicts
  import opened Diffs

  /** The identity of a callback object (Python's `id(fn)`). */
  type CallbackId = nat

  /** A lifecycle phase of the operator, such as authentication. */
  datatype Activity = Activity(name: string)

  const Authentication := Activity("authentication")

  /** Why a resource is being handled. */
  datatype Reason = Create | Update | Delete | Gone | Free | Noop | Acquire | Release

  /** One value of a label or annotation filter: the tokens PRESENT and
      ABSENT, a literal to compare with, or a callback to ask. */
  datatype MetaValue = Present | Absent | Literal(text: string) | Callback(fn: CallbackId)

  /** A label or annotation filter, in its insertion order. */
  type MetaFilter = seq<(string, MetaValue)>

  datatype ActivityHandler = ActivityHandler(id: string, fn: CallbackId, activity: Option<Activity>, fallback: bool)

  /** The three kinds of resource handlers. Each has an id, a callback, label
      and annotation filters and an optional `when` callback; spawning and
      changing handlers may require a finalizer, and changing handlers also
      filter by reason, field, and the initial/deleted flags. */
  datatype ResourceHandler =
    | WatchingHandler(id: string, fn: CallbackId, labels: MetaFilter, annotations: MetaFilter,
                      when: Option<CallbackId>)
    | SpawningHandler(id: string, fn: CallbackId, labels: MetaFilter, annotations: MetaFilter,
                      when: Option<CallbackId>, requiresFinalizer: bool)
    | ChangingHandler(id: string, fn: CallbackId, labels: MetaFilter, annotations: MetaFilter,
                      when: Option<CallbackId>, reason: Option<Reason>, field: Option<FieldPath>,
                      initial: bool, deleted: bool, requiresFinalizer: bool)

  /** What happened to a resource: its body, and for changes the reason,
      the initial and deleted flags and the diff (possibly absent). */
  datatype Cause =
    | WatchingCause(body: map<string, Value>)
    | SpawningCause(body: map<string, Value>)
    | ChangingCause(body: map<string, Value>, reason: Reason, initial: bool, deleted: bool,
                    diff: Option<seq<DiffItem>>)

  /** The keyword arguments passed to filter callbacks; they are built from
      the cause alone. */
  datatype Kwargs = Kwargs(cause: Cause)

  function BuildKwargs(cause: Cause): Kwargs
  {
    Kwargs(cause)
  }

  /** The truth of what the user's callbacks return: a label or annotation
      callback given the value found (or `None`), and a `when` callback. */
  datatype Calls = Calls(meta: (CallbackId, Value, Kwargs) -> bool, when: (CallbackId, Kwargs) -> bool)

  function ActivityFnOf(h: ActivityHandler): CallbackId
  {
    h.fn
  }

  function ResourceFnOf(h: ResourceHandler): CallbackId
  {
    h.fn
  }
}
