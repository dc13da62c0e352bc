# kopf handler registries, diffs, progress records and events in Dafny

This project models the core of kopf, a Python framework for Kubernetes
operators, and proves properties of the model. It covers:

- **Handler registries** (`registries.dfy`, module `Registries`):
  - the append-only `Registry` and the per-resource `OperatorRegistry`;
  - the activity lookup with its fallback rule;
  - the watching, spawning and changing lookups, filtered by the exclusion set, reason, and `initial`/`deleted` flags;
  - the filters: field-path prefixes, label and annotation patterns with PRESENT/ABSENT/literal/callback values, and the `when` callback;
  - `requires_finalizer`, `get_extra_fields`, and deduplication by callback identity.
- **Handler records** the registries store and match (`handlers.dfy`, module `Handlers`) and handler-id generation (`ids.dfy`, module `HandlerIds`).
- **Structural diff** of two JSON-like values, and its reduction to a sub-field (`diffs.dfy`, modules `Diffs` and `DiffReduction`).
- **Resource naming, URL building** and resource globs (`resources.dfy`, module `Resources`).
- **Per-handler progress record** under `status.kopf.progress` (`progress.dfy`, module `Progress`): the read predicates and the patch writers.
- **Event body** construction with message truncation (`events.dfy`, module `Events`).

Supporting modules:

- `Wrappers`: `Option` and `Result`.
- `Dicts`: JSON-like `Value`s and nested lookup.
- `Nested`: nested `setdefault(...).update(...)` writes on a mutable `Dict`.
- `MergePatch`: an RFC 7386 JSON merge patch, used to state what a body looks like once a patch is applied.
- `Numerals`: decimal text of integers, used for timestamps.
- `Scenarios`: concrete cases taken from the registry test fixtures.

State that the source mutates in place is modelled with classes:

- `Registries.Registry` holds the handler list that `append` grows.
- `Registries.OperatorRegistry` holds the lazily filled `defaultdict` maps.
- `Registries.KwargsCache` is the shared `kwargs` dict of one `match` call.
- `Nested.Dict` is a patch or body dict that the progress writers update.

Loops of the source are `while` loops with invariants, each proved against a specification function:

- the `found` flag of the activity lookup;
- the `seen_ids` set of `_deduplicated`;
- the pattern loop of `_matches_metadata`;
- the handler loops of the lookups.

Callbacks are abstract. A callback is an integer identity (`CallbackId`), and what label, annotation and `when` callbacks return is a parameter (`Handlers.Calls`). Their keyword arguments are a value built from the cause (`Handlers.Kwargs`). The current time is a parameter `now: int`.

## Model

| member | source | states |
|---|---|---|
| `Registries.Registry.constructor` | kopf/reactor/registries.py:45-47 | a new registry holds no handlers |
| `Registries.Registry.Append` | kopf/reactor/registries.py:49-53 | the handler is added at the end, the earlier handlers stay in order, and the registry is then non-empty (`__bool__`) |
| `Registries.ActivitySelectionMembers` | kopf/reactor/registries.py:66-82 | a handler is yielded iff it is in the registry and either line 74's condition holds for it (`activity is None or (activity == a and not fallback)`), or line 81's fallback condition holds and no handler at all satisfies line 74's |
| `Registries.FallbackOnlyWithoutRegular` | kopf/reactor/registries.py:70-82 | when every handler names its activity, a returned fallback handler means that no non-fallback handler for the activity exists, and then every returned handler is a fallback for it |
| `Registries.IterActivityHandlers` | kopf/reactor/registries.py:66-82 | the two loops with the `found` flag yield the regular handlers in registration order, or, only when there are none, the fallback ones |
| `Registries.GetActivityHandlers` | kopf/reactor/registries.py:60-64 | the deduplicated activity selection |
| `Registries.DeduplicatedKeepsFirsts` | kopf/reactor/registries.py:295-324 | the result is a subsequence of the input in the original order; it holds at each kept position the first handler of that callback; every first handler is kept |
| `Registries.DeduplicatedDistinct` | kopf/reactor/registries.py:318-324 | no two handlers of the result share a callback, and the result has exactly the input's set of callbacks |
| `Registries.DeduplicatedSubset` | kopf/reactor/registries.py:318-324 | deduplication yields only handlers of its input |
| `Registries.Deduplicate` | kopf/reactor/registries.py:318-324 | the loop with the growing `seen_ids` set computes the deduplication |
| `Registries.KwargsCache.Fill` | kopf/reactor/registries.py:391-392 | the kwargs are built from the cause when the cache is empty, and kept otherwise |
| `Registries.MatchesMetadata` | kopf/reactor/registries.py:378-403 | the result is true iff every entry passes: ABSENT iff the key is missing; PRESENT iff the key is present; a callback iff it returns true on the value found, or on `None` when the key is missing; a literal iff the key is present with an equal value; an empty pattern passes. A filled cache is never replaced |
| `Registries.MatchesFilterCallback` | kopf/reactor/registries.py:406-415 | no `when` callback passes; otherwise its answer on the cause's kwargs decides |
| `Registries.Match` | kopf/reactor/registries.py:327-340 | the result is the conjunction of the field, label, annotation and `when` filters. Labels are read from `metadata.labels` and annotations from `metadata.annotations`, defaulting to empty; one fresh kwargs cache is shared by all the filters |
| `Registries.MatchesFieldCases` | kopf/reactor/registries.py:343-353 | the field filter passes when fields are ignored, for handlers other than changing ones, and for a handler without a field; with a field set and no changed fields it fails |
| `Registries.IterWatchingHandlers` | kopf/reactor/registries.py:110-118 | yields, in order, the non-excluded handlers that match with fields ignored |
| `Registries.WatchingHandlersMembers` | kopf/reactor/registries.py:110-118 | a handler is yielded by the watching lookup iff it is registered, not excluded, and matches with fields ignored |
| `Registries.IterSpawningHandlers` | kopf/reactor/registries.py:127-135 | yields, in order, the non-excluded handlers that match with no changed fields |
| `Registries.IterChangingHandlers` | kopf/reactor/registries.py:158-172 | yields, in order, the changing handlers that pass the exclusion, reason, initial and deletion checks. Each must also match with the diff's fields (none when the diff is absent or empty) as the changed fields |
| `Registries.GetWatchingHandlers` | kopf/reactor/registries.py:89-94 | the deduplicated watching selection |
| `Registries.GetSpawningHandlers` | kopf/reactor/registries.py:89-94 | the deduplicated spawning selection |
| `Registries.GetChangingHandlers` | kopf/reactor/registries.py:89-94 | the deduplicated changing selection |
| `Registries.ChangingHandlersAllowed` | kopf/reactor/registries.py:158-172 | every handler the changing lookup returns is registered and not excluded. Its reason is unset or the cause's reason. If it is initial, the cause is initial, and on a deleted cause it is marked for deletion. It matches the cause with the diff's fields |
| `Registries.ChangingHandlerWithoutReason` | kopf/reactor/registries.py:163-172 | a non-initial changing handler with no reason is yielded for a cause of any reason, if it is not excluded and matches |
| `Registries.RequiresFinalizer` | kopf/reactor/registries.py:137-150 | (also lines 186-199) true iff some non-excluded handler has `requires_finalizer` set and matches with no changed fields; false for an empty registry |
| `Registries.FieldScopedNeedsNoFinalizer` | kopf/reactor/registries.py:186-199 | a field-scoped changing handler never makes a finalizer necessary, because the check passes no changed fields |
| `Registries.GetExtraFields` | kopf/reactor/registries.py:174-184 | the set holds the field of every handler that has a non-empty field, and nothing else |
| `Registries.OperatorRegistry.constructor` | kopf/reactor/registries.py:214-219 | an empty activity registry and three empty resource maps, which trivially share no registry (`Valid`) |
| `Registries.OperatorRegistry.KnownResources` | kopf/reactor/registries.py:221-226 | a resource is known iff one of the three maps has a registry for it |
| `Registries.OperatorRegistry.RegistryFor` | kopf/reactor/registries.py:217-219 | indexing a `defaultdict`: an existing registry is returned unchanged; otherwise a fresh empty registry is stored. The other maps are untouched, and the resource becomes known. No two entries of the three maps ever share a registry object (`Valid` is kept) |
| `HandlerIds.GetCallableId` | kopf/reactor/registries.py:277-278 | no callable is an error |
| `HandlerIds.Innermost` | kopf/reactor/registries.py:279-282 | unwrapping `functools.partial` and `__wrapped__` layers ends at a callable that is neither |
| `HandlerIds.CallableIdOfInnermost` | kopf/reactor/registries.py:275-292 | the id of a callable is that of its innermost one: `lambda:{path}:{line}` for a lambda, the qualified name for a function, an error otherwise |
| `HandlerIds.GenerateIdShape` | kopf/reactor/registries.py:262-272 | an explicit id wins over the callable's id; the result is `prefix/id/suffix` with empty or absent parts omitted; a failing callable id fails the generation |
| `HandlerIds.SurroundShape` | kopf/reactor/registries.py:270-271 | the suffix is appended first and the prefix prepended, each with a slash, only when non-empty |
| `HandlerIds.SubHandlerIdHasParentPrefix` | kopf/reactor/registries.py:262-272 | an id generated with a non-empty parent prefix starts with `parent/` |
| `Diffs.DiffIterSound` | kopf/structs/diffs.py:226-267 | every item lies under the starting path. Its old and new values are the two sides resolved at its relative path; they differ. It is an ADD iff the old value is `None`, and a REMOVE iff the new value is `None` |
| `Diffs.MapDiffByKey` | kopf/structs/diffs.py:257-265 | for two mappings every item's path extends the starting path by a key. That key is added (one ADD of its value), removed (one REMOVE), or common (the item comes from the key's own diff) |
| `Diffs.MapDiffHasEveryKey` | kopf/structs/diffs.py:257-265 | conversely, every added or removed key with a non-`None` value gives its item, and every item of a common key's diff is in the map's diff |
| `Diffs.DiffIterComplete` | kopf/structs/diffs.py:226-267 | wherever the two sides differ, and are not both mappings there, some item's path is a prefix of that place |
| `Diffs.NoDiffOfEqual` | kopf/structs/diffs.py:249-250 | equal values, `None` and `None` included, give no items |
| `Diffs.SingleItemDiffs` | kopf/structs/diffs.py:251-256 | `None` to `b` is exactly one ADD. `a` to `None` is exactly one REMOVE. Values of different types, or unequal non-mapping values (lists too), give exactly one CHANGE at the path |
| `Diffs.EmptyDiff` | kopf/structs/diffs.py:280 | `EMPTY` has no items and the root path |
| `Diffs.Diff.At` | kopf/structs/diffs.py:144-146 | integer indexing, negative indices counted from the end as in Python, succeeds exactly for indices in range, and returns the item at `i`, or at `len + i` for a negative `i` |
| `Diffs.ReduceToRoot` | kopf/structs/diffs.py:200-202 | reducing to the empty path returns every item unchanged |
| `Diffs.ReduceConcat` | kopf/structs/diffs.py:198-215 | reduction works item by item |
| `Diffs.ReduceItemCases` | kopf/structs/diffs.py:204-215 | an item under the path is kept with the path stripped; an unrelated item is dropped; an item above the path whose two values are both absent at the path gives nothing |
| `DiffReduction.DiffIterShift` | kopf/structs/diffs.py:257-265 | the diff from a starting path is the diff from the root with every item's field prefixed by that path |
| `DiffReduction.ReduceOfDiff` | kopf/structs/diffs.py:174-215 | reducing the diff of two values to a field equals the diff of the two values resolved at that field |
| `DiffReduction.ReduceCompose` | kopf/structs/diffs.py:174-215 | reducing to `f1` and then to `f2` is reducing to `f1 + f2` |
| `DiffReduction.SelectCompose` | kopf/structs/diffs.py:148-150 | `d[f1][f2]` equals `d[f1 + f2]`, items and path |
| `DiffReduction.SelectOfBuild` | kopf/structs/diffs.py:148-150 | `diff(a, b)[f]` has the items of the diff of `a` and `b` resolved at `f`, and its path is `f` |
| `DiffReduction.SelectSound` | kopf/structs/diffs.py:164-170 | every item of a selected diff carries the resolved old and new values at its relative path |
| `Resources.NameOf` | kopf/structs/resources.py:15-17 | the name is `plural.group`, or just `plural` for the core group |
| `Resources.ApiVersionOf` | kopf/structs/resources.py:19-22 | the API version is `group/version`, or just `version` for the core group |
| `Resources.Resource.ApiRoot` | kopf/structs/resources.py:37 | the root segment is `/api` iff the group is empty and the version is `v1`, else `/apis` |
| `Resources.Resource.GetUrl` | kopf/structs/resources.py:33-34 | building fails exactly when a subresource is given without a name |
| `Resources.UrlStartsWithRoot` | kopf/structs/resources.py:36-45 | a URL built without a server succeeds when allowed and starts with the root segment |
| `Resources.Kept` | kopf/structs/resources.py:66 | every kept part is non-empty, and there are at most as many as parts given |
| `Resources.KeptFrom` | kopf/structs/resources.py:66 | every kept part is one of the parts given |
| `Resources.KeptComplete` | kopf/structs/resources.py:66 | every present non-empty part is kept |
| `Resources.KeptConcat` | kopf/structs/resources.py:66 | the parts of a joined list are kept piece by piece, in order. With `KeptSingle` this fixes the result: the truthy parts, each once, in input order |
| `Resources.KeptSingle` | kopf/structs/resources.py:66 | one part is kept exactly when it is present and non-empty |
| `Resources.JoinConcat` | kopf/structs/resources.py:66 | `'/'.join` of two non-empty lists is their joins with one slash between |
| `Resources.VersionUrlShape` | kopf/structs/resources.py:47-54 | without a server or query, the version URL is `/api/v1` for the core `v1`, `/apis/{version}` for another core version, and `/apis/{group}/{version}` for a named group |
| `Resources.VersionUrlPrefixesUrl` | kopf/structs/resources.py:36-54 | every object or list URL without a server or query starts with the resource's version URL and a slash |
| `Resources.QuestionMarkOnlyWithQuery` | kopf/structs/resources.py:65-67 | a `?` appears in the URL iff the query is non-empty |
| `Resources.ServerJoin` | kopf/structs/resources.py:68 | with a server, the URL is the server without trailing slashes, one slash, and the path without leading slashes |
| `Resources.CoreObjectUrl` | kopf/structs/resources.py:36-45 | a core object's URL is `/api/v1/namespaces/{namespace}/{plural}/{name}` |
| `Resources.StripUnchanged` | kopf/structs/resources.py:17 | stripping leaves a string without the character at either end unchanged |
| `Resources.WildcardGlobMatchesAll` | kopf/structs/resources.py:89-97 | the glob `*/*/*` matches every resource |
| `Resources.LiteralGlobMatchesOnlyItself` | kopf/structs/resources.py:89-97 | a glob without wildcards matches exactly the resource with its three components |
| `Progress.ExactlyOneState` | kopf/structs/progress.py:66-82 | exactly one of finished, sleeping and awakened holds. Sleeping means not finished, with an awake time later than now. An unreadable awake time is an error for both sleeping and awakened |
| `Progress.GetRetryCount` | kopf/structs/progress.py:100-102 | an absent retry count reads as 0 |
| `Progress.SetStartTime` | kopf/structs/progress.py:105-109 | the patch becomes the old patch with `started` set in this handler's progress entry |
| `Progress.SetStartTimeRoundTrip` | kopf/structs/progress.py:85-109 | after `set_start_time`, `get_start_time` reads the time written; the body with the patch applied has the handler started |
| `Progress.StartTimeFromBody` | kopf/structs/progress.py:85-91 | without `started` in the patch, the body's start time is read |
| `Progress.SetAwakeTime` | kopf/structs/progress.py:112-121 | the patch's entry gets `delayed` set to now plus the delay, or `None` without a delay |
| `Progress.SetRetryTime` | kopf/structs/progress.py:124-130 | the patch's entry gets `retries` from the body's count plus one, and `delayed` |
| `Progress.SetRetryTimeRoundTrip` | kopf/structs/progress.py:124-130 | with the patch applied, the retry count is the body's plus one and the awake time is the one written. The handler sleeps iff it is not finished and the delay is positive |
| `Progress.OtherEntriesUnchanged` | kopf/structs/progress.py:105-155 | writing one handler's entry leaves every other handler's entry of the patch unchanged |
| `Progress.EntryAfterApply` | kopf/structs/progress.py:105-155 | after a writer, the handler's entry of the patched body is the body's entry merged with the patch's entry |
| `Progress.StoreFailure` | kopf/structs/progress.py:133-141 | the entry gets `stopped`, `failure=True`, `retries` plus one and the message |
| `Progress.StoreFailureRoundTrip` | kopf/structs/progress.py:133-141 | with the patch applied, the handler is finished, its retries are one more, and its message is the one given |
| `Progress.StoreSuccess` | kopf/structs/progress.py:144-155 | the entry gets `stopped`, `success=True`, `retries` plus one and `message=None`. A non-`None` result is then written into `status.{id}` |
| `Progress.StoreSuccessRoundTrip` | kopf/structs/progress.py:144-155 | with the patch applied, the handler is finished, its retries are one more and its message is gone. The patch's `status.{id}` holds the result over what was there |
| `Progress.GetStoredDigest` | kopf/structs/progress.py:158-159 | the digest is `status.kopf.digest` of the body, and the body gains empty `status` and `kopf` maps where absent |
| `Progress.SetStoredDigest` | kopf/structs/progress.py:162-163 | the patch's `status.kopf.digest` is set |
| `Progress.StoredDigestRoundTrip` | kopf/structs/progress.py:158-163 | the digest written by `set_stored_digest` is the one read back from the patched body |
| `Progress.PurgeProgress` | kopf/structs/progress.py:166-168 | the patch's `status.kopf` gets `progress=None` and the digest |
| `Progress.PurgeProgressRoundTrip` | kopf/structs/progress.py:166-168 | with the patch applied, no handler is started any more and the digest is the one given |
| `Progress.ParseTimeText` | kopf/structs/progress.py:91 | a written timestamp reads back as the same time |
| `Events.Truncated` | kopf/clients/events.py:42-46 | a message of at most 1024 characters is unchanged. A longer one becomes exactly 1024: its first 511 characters, `...`, and its last 510 |
| `Events.TruncatedIdempotent` | kopf/clients/events.py:42-46 | truncating twice is truncating once |
| `Events.EventNamespace` | kopf/clients/events.py:37 | the ref's namespace when truthy, else the configured one |
| `Events.BuildEventBody` | kopf/clients/events.py:37-69 | the body is the event body for the namespace `EventNamespace` chooses, the message cut as `Truncated` cuts it, and a copy of the ref with that namespace set; the caller's ref is not changed |
| `Events.EventBodyKeys` | kopf/clients/events.py:48-69 | the event body has exactly the twelve keys of the source's dict |
| `Events.EventBodyObject` | kopf/clients/events.py:37-63 | `metadata` holds the namespace and `generateName='kopf-event-'`; `involvedObject` is the ref with that same namespace set |
| `Events.EventBodyFields` | kopf/clients/events.py:54-61 | the body carries the type, reason and message given, `action='Action?'`, the reporting component `kopf` and instance `dev`, and the source component `kopf` |
| `Events.EventBodyTimestamps` | kopf/clients/events.py:65-68 | the first, last and event timestamps are one and the same |
| `Nested.UpdateAt` | kopf/structs/progress.py:106-107 | after `setdefault(...).setdefault(...).update(u)` the dict at the path is the old one updated with `u` |
| `Nested.UpdateAtFrame` | kopf/structs/progress.py:106-107 | places that are neither above nor below the path are unchanged |
| `Nested.UpdateAtTwice` | kopf/structs/progress.py:126-130 | two updates at one path are one update with both maps |
| `MergePatch.ApplyAt` | kopf/clients/patching.py:51 | applying a merge patch, the map at a path of the result is the body's map there merged with the patch's map there |
| `Numerals.ParseIntToString` | kopf/structs/progress.py:91 | the decimal text of an integer parses back to it |
| `Scenarios.FieldDiffMatching` | tests/registries/conftest.py:68-81 | for the fixture cause whose diff changes `some-field`: handlers of that field or of a deeper one match, `some` does not (prefixes are per segment), ABSENT fails on a present label, and literal and ABSENT entries pass when satisfied |
| `Scenarios.CreateAndResumeDeduplicated` | kopf/reactor/registries.py:298-316 | a function registered for both creation and resuming is returned once, as its first handler |
| `Scenarios.LoginFallbacks` | kopf/reactor/registries.py:236-259 | the two library login handlers, both fallbacks, are used when no other login handler exists, and neither is used beside the operator's own |

## Left out

- `SmartOperatorRegistry` (registries.py:229-259) is left out, because its contents depend on which client libraries import. So are `get_default_registry` and `set_default_registry` (registries.py:418-438), because they are process-global state. Only the login handlers it appends appear, in `Scenarios.LoginFallbacks`.
- The three resource registry classes share one `ResourceHandler` datatype, and handlers of any kind may be appended. The changing lookup skips handlers that are not changing handlers and causes that are not changing causes; the source rules these out by typing.
- Policy fields of handlers (timeout, retries, backoff, errors mode) are not carried, because nothing in the core reads them.
- `invocation.build_kwargs` is not part of this model. Kwargs are a value built from the cause, and callbacks are pure functions of their arguments, so their side effects and the order of their calls are not modelled.
- `Match`: `match` builds the full list given to `all`, so every filter is evaluated and no filter short-circuits the others. A description that short-circuits on the first failing filter gives the same answer for pure callbacks. Within a metadata pattern, the first failing key does stop the loop, as in the source.
- Handler and activity records (kopf/structs/handlers.py) and causes (kopf/reactor/causation.py) are not part of this model. Their fields are taken as the registries use them, and an activity is a named value.
- `HandlerIds.CallableIdOfInnermost`: the fallbacks of `__qualname__` to `__name__` and `repr` are not modelled. A function's id is its qualified name.
- `kopf.structs.dicts.parse_field` is not part of this model: fields are taken already parsed as sequences of keys. `dicts.resolve` is not part of this model either. It is assumed to be a nested lookup that reads an absent key as `None` (`Dicts.Resolve`). It also reads a scalar parent as `None`, where the source raises.
- The getters of progress.py and events.py read a non-mapping level as an empty mapping (`Nested.AtPath`), where Python would raise on a non-mapping value.
- `Progress.SetRetryTime`, `Progress.StoreFailure` and `Progress.StoreSuccess` require the stored `retries` to be absent or a number. `get_retry_count` (progress.py:100-102) returns a stored `None` or string as it is, and `retry + 1` then raises TypeError. That error path is not modelled.
- The writers of progress.py require `Nested.Writable`: every level of the path that already exists in the patch (or body) is a mapping. Where one is not, `setdefault` returns the non-mapping and the next `setdefault` or `update` raises AttributeError. That error path is not modelled.
- `Registries.LabelsOf` and `Registries.AnnotationsOf` read `metadata.labels` and `metadata.annotations` through `Nested.AtPath` (registries.py:363, 374), so a `None` or other non-mapping there reads as no labels. Python raises TypeError on `key in None` in `_matches_metadata`; that error path is not modelled.
- Python's `True == 1` (so `Bool(true)` versus `Int(1)` in the diff) is not modelled; every value kind is distinct.
- `urllib.parse.urlencode` is left out: the query is an opaque, already encoded string.
- Timestamps are `now: int` seconds written as decimal text (`Progress.TimeText`), not `datetime.isoformat()`; delays are whole seconds. `datetime.utcnow()` is a parameter.
- `Events.BuildEventBody`: the event timestamps are the decimal text of `now` followed by `Z`, not an ISO 8601 date. The `pykube.Event` create call and its error handling (events.py:71-83) are left out, as is the lookup of the configured namespace, which is a parameter.
- `Progress.StoreSuccessRoundTrip`: stated only for handler ids other than `kopf`, since for the id `kopf` the result is merged by `update` into `status.kopf` itself (kopf/structs/progress.py:155), and a result carrying a `progress` key then replaces the whole progress map, the handler's own entry among it. Handler results that are not mappings are not modelled.
- `MergePatch.ApplyAt`: the API server applying a patch is modelled as an RFC 7386 JSON merge patch, since that is the patch a body is merged with.
- The orchestration that calls these functions, namely handling.py, discovery.py, sleeping.py and cli.py, is left out, because it is asyncio plumbing and cluster I/O. The peering protocol's implementation is not among these files, so it is not part of this model.
- `diff_iter`'s order across keys comes from frozensets and is unspecified. `Diffs.DiffIter` fixes one order by choosing keys from sets, and the lemmas do not depend on it.
