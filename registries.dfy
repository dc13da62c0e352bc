/** The handler registries (kopf/reactor/registries.py): append-only lists of
    handlers, the lookups that pick the handlers for a cause or an activity,
    the filters they apply, and the deduplication by callback identity. */
module Registries {
  import opened Wrappers
  import opened Dicts
  import opened Diffs
  import opened Nested
  import opened Handlers
  import opened Resources

  /** The elements of `s` that pass `p`, in their order. */
  function Filter<T>(s: seq<T>, p: T -> bool): (r: seq<T>)
    ensures |r| <= |s|
    ensures forall i :: 0 <= i < |r| ==> p(r[i]) && r[i] in s
    decreases |s|
  {
    if s == [] then []
    else Filter(s[..|s| - 1], p) + (if p(s[|s| - 1]) then [s[|s| - 1]] else [])
  }

  /** Everything in `s` that passes `p` is kept. */
  lemma {:induction false} FilterKeeps<T>(s: seq<T>, p: T -> bool, i: int)
    requires 0 <= i < |s| && p(s[i])
    ensures s[i] in Filter(s, p)
    decreases |s|
  {
    if i < |s| - 1 {
      FilterKeeps(s[..|s| - 1], p, i);
    }
  }

  /** An element is kept by `Filter` iff it is in `s` and passes `p`. */
  lemma FilterMembers<T>(s: seq<T>, p: T -> bool, x: T)
    ensures x in Filter(s, p) <==> x in s && p(x)
  {
    if x in s && p(x) {
      var i :| 0 <= i < |s| && s[i] == x;
      FilterKeeps(s, p, i);
    }
  }

  /** The callback identities of some handlers. */
  function FnsOf<H>(hs: seq<H>, fnOf: H -> CallbackId): set<CallbackId>
    decreases |hs|
  {
    if hs == [] then {} else FnsOf(hs[..|hs| - 1], fnOf) + {fnOf(hs[|hs| - 1])}
  }

  lemma FnsOfSnoc<H>(hs: seq<H>, fnOf: H -> CallbackId, i: int)
    requires 0 <= i < |hs|
    ensures FnsOf(hs[..i + 1], fnOf) == FnsOf(hs[..i], fnOf) + {fnOf(hs[i])}
  {
    assert hs[..i + 1][..i] == hs[..i];
  }

  /** `FnsOf` holds exactly the callbacks of the handlers. */
  lemma {:induction false} FnsOfMembers<H>(hs: seq<H>, fnOf: H -> CallbackId, f: CallbackId)
    ensures f in FnsOf(hs, fnOf) <==> exists i :: 0 <= i < |hs| && fnOf(hs[i]) == f
    decreases |hs|
  {
    if hs != [] {
      var n := |hs| - 1;
      FnsOfMembers(hs[..n], fnOf, f);
      if f in FnsOf(hs[..n], fnOf) {
        var i :| 0 <= i < n && fnOf(hs[..n][i]) == f;
        assert hs[..n][i] == hs[i];
      }
      if exists i :: 0 <= i < |hs| && fnOf(hs[i]) == f {
        var i :| 0 <= i < |hs| && fnOf(hs[i]) == f;
        if i < n {
          assert hs[..n][i] == hs[i];
        }
      }
    }
  }

  /** `_deduplicated`: each handler whose callback was not seen earlier. */
  function Deduplicated<H>(hs: seq<H>, fnOf: H -> CallbackId): seq<H>
    decreases |hs|
  {
    if hs == [] then []
    else
      var init := hs[..|hs| - 1];
      Deduplicated(init, fnOf) + (if fnOf(hs[|hs| - 1]) in FnsOf(init, fnOf) then [] else [hs[|hs| - 1]])
  }

  /** The handler at `i` is the first with its callback. */
  predicate IsFirst<H>(hs: seq<H>, fnOf: H -> CallbackId, i: int)
    requires 0 <= i < |hs|
  {
    fnOf(hs[i]) !in FnsOf(hs[..i], fnOf)
  }

  /** `idx` lists, in increasing order, the positions in `hs` of the
      elements of `r`. */
  ghost predicate IsEmbedding<H>(idx: seq<int>, r: seq<H>, hs: seq<H>)
  {
    && |idx| == |r|
    && (forall k :: 0 <= k < |idx| ==> 0 <= idx[k] < |hs| && r[k] == hs[idx[k]])
    && (forall k, l :: 0 <= k < l < |idx| ==> idx[k] < idx[l])
  }

  /** `idx` is the list of positions of first handlers of their callbacks,
      and it lists the positions of the elements of `r`. */
  ghost predicate FirstsAt<H>(idx: seq<int>, r: seq<H>, hs: seq<H>, fnOf: H -> CallbackId)
  {
    && IsEmbedding(idx, r, hs)
    && (forall k :: 0 <= k < |idx| ==> IsFirst(hs, fnOf, idx[k]))
    && (forall i :: 0 <= i < |hs| && IsFirst(hs, fnOf, i) ==> i in idx)
  }

  /** `r` is `hs` with exactly the first handler of each callback kept, in
      the original order. */
  ghost predicate KeepsFirstOccurrences<H>(r: seq<H>, hs: seq<H>, fnOf: H -> CallbackId)
  {
    exists idx :: FirstsAt(idx, r, hs, fnOf)
  }

  /** Whether a handler is the first with its callback does not depend on
      what comes after it. */
  lemma IsFirstInPrefix<H>(hs: seq<H>, fnOf: H -> CallbackId, n: int, i: int)
    requires 0 <= i < n <= |hs|
    ensures hs[..n][i] == hs[i]
    ensures IsFirst(hs[..n], fnOf, i) == IsFirst(hs, fnOf, i)
  {
    assert hs[..n][..i] == hs[..i];
  }

  lemma EmbeddingSnoc<H>(idx: seq<int>, r: seq<H>, hs: seq<H>, keep: bool)
    requires |hs| > 0
    requires IsEmbedding(idx, r, hs[..|hs| - 1])
    ensures var n := |hs| - 1;
      IsEmbedding(if keep then idx + [n] else idx, r + (if keep then [hs[n]] else []), hs)
  {
    var n := |hs| - 1;
    forall k | 0 <= k < |idx| ensures hs[..n][idx[k]] == hs[idx[k]] { }
    if keep {
      assert (r + [hs[n]])[|r|] == hs[n];
      forall k | 0 <= k < |idx| ensures (r + [hs[n]])[k] == r[k] && (idx + [n])[k] == idx[k] { }
    } else {
      assert r + [] == r;
    }
  }

  /** The positions of the first handler of each callback, in order. */
  function FirstIndices<H>(hs: seq<H>, fnOf: H -> CallbackId): (idx: seq<int>)
    ensures forall k :: 0 <= k < |idx| ==> 0 <= idx[k] < |hs|
    decreases |hs|
  {
    if hs == [] then []
    else
      var n := |hs| - 1;
      FirstIndices(hs[..n], fnOf) + (if IsFirst(hs, fnOf, n) then [n] else [])
  }

  lemma {:induction false} FirstIndicesEmbed<H>(hs: seq<H>, fnOf: H -> CallbackId)
    ensures IsEmbedding(FirstIndices(hs, fnOf), Deduplicated(hs, fnOf), hs)
    decreases |hs|
  {
    if hs != [] {
      var n := |hs| - 1;
      FirstIndicesEmbed(hs[..n], fnOf);
      EmbeddingSnoc(FirstIndices(hs[..n], fnOf), Deduplicated(hs[..n], fnOf), hs, IsFirst(hs, fnOf, n));
    }
  }

  lemma {:induction false} FirstIndicesAreFirst<H>(hs: seq<H>, fnOf: H -> CallbackId, k: int)
    requires 0 <= k < |FirstIndices(hs, fnOf)|
    ensures IsFirst(hs, fnOf, FirstIndices(hs, fnOf)[k])
    decreases |hs|
  {
    var n := |hs| - 1;
    var idx := FirstIndices(hs[..n], fnOf);
    if k < |idx| {
      FirstIndicesAreFirst(hs[..n], fnOf, k);
      IsFirstInPrefix(hs, fnOf, n, idx[k]);
      assert FirstIndices(hs, fnOf)[k] == idx[k];
    }
  }

  lemma {:induction false} FirstsListed<H>(hs: seq<H>, fnOf: H -> CallbackId, i: int)
    requires 0 <= i < |hs| && IsFirst(hs, fnOf, i)
    ensures i in FirstIndices(hs, fnOf)
    decreases |hs|
  {
    var n := |hs| - 1;
    if i < n {
      IsFirstInPrefix(hs, fnOf, n, i);
      FirstsListed(hs[..n], fnOf, i);
    } else {
      assert FirstIndices(hs, fnOf)[|FirstIndices(hs[..n], fnOf)|] == n;
    }
  }

  /** Deduplication keeps a subsequence of its input in the original order:
      the first handler of each callback, and no other. */
  lemma DeduplicatedKeepsFirsts<H>(hs: seq<H>, fnOf: H -> CallbackId)
    ensures KeepsFirstOccurrences(Deduplicated(hs, fnOf), hs, fnOf)
  {
    var idx := FirstIndices(hs, fnOf);
    FirstIndicesEmbed(hs, fnOf);
    forall k | 0 <= k < |idx| ensures IsFirst(hs, fnOf, idx[k]) {
      FirstIndicesAreFirst(hs, fnOf, k);
    }
    forall i | 0 <= i < |hs| && IsFirst(hs, fnOf, i) ensures i in idx {
      FirstsListed(hs, fnOf, i);
    }
    assert FirstsAt(idx, Deduplicated(hs, fnOf), hs, fnOf);
  }

  /** Deduplication never yields two handlers with the same callback, and
      loses no callback. */
  lemma {:induction false} DeduplicatedDistinct<H>(hs: seq<H>, fnOf: H -> CallbackId)
    ensures var r := Deduplicated(hs, fnOf);
      forall i, j :: 0 <= i < j < |r| ==> fnOf(r[i]) != fnOf(r[j])
    ensures FnsOf(Deduplicated(hs, fnOf), fnOf) == FnsOf(hs, fnOf)
    decreases |hs|
  {
    if hs != [] {
      var n := |hs| - 1;
      var init := hs[..n];
      DeduplicatedDistinct(init, fnOf);
      var d := Deduplicated(init, fnOf);
      var f := fnOf(hs[n]);
      FnsOfSnoc(hs, fnOf, n);
      assert hs[..n + 1] == hs;
      assert FnsOf(hs, fnOf) == FnsOf(init, fnOf) + {f};
      if f !in FnsOf(init, fnOf) {
        var r := d + [hs[n]];
        assert Deduplicated(hs, fnOf) == r;
        forall i | 0 <= i < |d| ensures fnOf(r[i]) != f {
          FnsOfMembers(d, fnOf, fnOf(d[i]));
        }
        FnsOfSnoc(r, fnOf, |d|);
        assert r[..|d| + 1] == r && r[..|d|] == d && r[|d|] == hs[n];
        assert FnsOf(r, fnOf) == FnsOf(d, fnOf) + {f};
      } else {
        assert Deduplicated(hs, fnOf) == d + [] == d;
      }
    }
  }

  /** `_deduplicated`, with its growing set of seen callbacks. */
  method Deduplicate<H>(hs: seq<H>, fnOf: H -> CallbackId) returns (r: seq<H>)
    ensures r == Deduplicated(hs, fnOf)
  {
    var seen: set<CallbackId> := {};
    r := [];
    var i := 0;
    while i < |hs|
      invariant 0 <= i <= |hs|
      invariant seen == FnsOf(hs[..i], fnOf)
      invariant r == Deduplicated(hs[..i], fnOf)
    {
      FnsOfSnoc(hs, fnOf, i);
      assert hs[..i + 1][..i] == hs[..i];
      if fnOf(hs[i]) !in seen {
        seen := seen + {fnOf(hs[i])};
        r := r + [hs[i]];
      }
      i := i + 1;
    }
    assert hs[..i] == hs;
  }

  /** Deduplication only drops handlers. */
  lemma {:induction false} DeduplicatedSubset<H>(hs: seq<H>, fnOf: H -> CallbackId, x: H)
    requires x in Deduplicated(hs, fnOf)
    ensures x in hs
    decreases |hs|
  {
    var n := |hs| - 1;
    if x in Deduplicated(hs[..n], fnOf) {
      DeduplicatedSubset(hs[..n], fnOf, x);
    }
  }

  // ---------------------------------------------------------------------
  // Activity handlers

  /** Line 74: a handler for every activity, or a regular (non-fallback)
      handler for this one. Python's `and` binds tighter than `or`. */
  predicate IsRegular(h: ActivityHandler, a: Activity)
  {
    h.activity.None? || (h.activity == Some(a) && !h.fallback)
  }

  /** Line 81: a handler for every activity, or a fallback handler for
      this one. */
  predicate IsFallback(h: ActivityHandler, a: Activity)
  {
    h.activity.None? || (h.activity == Some(a) && h.fallback)
  }

  function RegularTo(a: Activity): ActivityHandler -> bool
  {
    h => IsRegular(h, a)
  }

  function FallbackTo(a: Activity): ActivityHandler -> bool
  {
    h => IsFallback(h, a)
  }

  /** What `ActivityRegistry.iter_handlers` yields: the regular handlers,
      or the fallback ones when there is no regular handler. */
  function ActivitySelection(hs: seq<ActivityHandler>, a: Activity): seq<ActivityHandler>
  {
    var regular := Filter(hs, RegularTo(a));
    if regular != [] then regular else Filter(hs, FallbackTo(a))
  }

  /** A handler is selected iff it is regular for the activity, or it is a
      fallback for it and no handler at all is regular. */
  lemma ActivitySelectionMembers(hs: seq<ActivityHandler>, a: Activity, h: ActivityHandler)
    ensures h in ActivitySelection(hs, a) <==>
      h in hs && (IsRegular(h, a) || (IsFallback(h, a) && forall g :: g in hs ==> !IsRegular(g, a)))
  {
    FilterMembers(hs, RegularTo(a), h);
    FilterMembers(hs, FallbackTo(a), h);
    var regular := Filter(hs, RegularTo(a));
    if regular != [] {
      FilterMembers(hs, RegularTo(a), regular[0]);
    }
    if exists g :: g in hs && IsRegular(g, a) {
      var g :| g in hs && IsRegular(g, a);
      FilterMembers(hs, RegularTo(a), g);
    }
  }

  /** When every handler names its activity, a fallback handler is chosen
      only when no regular handler for the activity exists, and then the
      selection holds no regular handler. */
  lemma FallbackOnlyWithoutRegular(hs: seq<ActivityHandler>, a: Activity, h: ActivityHandler)
    requires forall g :: g in hs ==> g.activity.Some?
    requires h in ActivitySelection(hs, a) && h.fallback
    ensures forall g :: g in hs && g.activity == Some(a) ==> g.fallback
    ensures forall g :: g in ActivitySelection(hs, a) ==> g.fallback && g.activity == Some(a)
  {
    ActivitySelectionMembers(hs, a, h);
    forall g | g in ActivitySelection(hs, a) ensures g.fallback && g.activity == Some(a) {
      ActivitySelectionMembers(hs, a, g);
    }
  }

  /** `ActivityRegistry.iter_handlers`, with its `found` flag. */
  method IterActivityHandlers(registry: Registry<ActivityHandler>, a: Activity) returns (r: seq<ActivityHandler>)
    ensures r == ActivitySelection(registry.handlers, a)
  {
    var hs := registry.handlers;
    var found := false;
    r := [];
    var i := 0;
    while i < |hs|
      invariant 0 <= i <= |hs|
      invariant r == Filter(hs[..i], RegularTo(a))
      invariant found <==> r != []
    {
      assert hs[..i + 1][..i] == hs[..i];
      if IsRegular(hs[i], a) {
        r := r + [hs[i]];
        found := true;
      }
      i := i + 1;
    }
    assert hs[..i] == hs;
    if !found {
      i := 0;
      while i < |hs|
        invariant 0 <= i <= |hs|
        invariant r == Filter(hs[..i], FallbackTo(a))
      {
        assert hs[..i + 1][..i] == hs[..i];
        if IsFallback(hs[i], a) {
          r := r + [hs[i]];
        }
        i := i + 1;
      }
      assert hs[..i] == hs;
    }
  }

  /** `ActivityRegistry.get_handlers` */
  method GetActivityHandlers(registry: Registry<ActivityHandler>, a: Activity) returns (r: seq<ActivityHandler>)
    ensures r == Deduplicated(ActivitySelection(registry.handlers, a), ActivityFnOf)
  {
    var selected := IterActivityHandlers(registry, a);
    r := Deduplicate(selected, ActivityFnOf);
  }

  // ---------------------------------------------------------------------
  // Filters of resource handlers

  /** `_matches_field`: segment-wise prefix matching of the handler's field
      against the changed fields, in either direction. */
  predicate MatchesField(h: ResourceHandler, changedFields: set<FieldPath>, ignoreFields: bool)
  {
    || ignoreFields
    || !h.ChangingHandler?
    || h.field.None? || h.field.value == []
    || exists f :: f in changedFields && (h.field.value <= f || f <= h.field.value)
  }

  /** The metadata labels and annotations of a body, read leniently. */
  function LabelsOf(cause: Cause): map<string, Value>
  {
    AtPath(cause.body, ["metadata", "labels"])
  }

  function AnnotationsOf(cause: Cause): map<string, Value>
  {
    AtPath(cause.body, ["metadata", "annotations"])
  }

  /** One `key: value` entry of a metadata filter against the content. */
  predicate KeyPasses(key: string, value: MetaValue, content: map<string, Value>, kw: Kwargs, calls: Calls)
  {
    match value
    case Absent => key !in content
    case Present => key in content
    case Callback(fn) => calls.meta(fn, Get(content, key), kw)
    case Literal(text) => key in content && content[key] == Str(text)
  }

  /** Every entry of the pattern passes. */
  predicate MetadataMatches(pattern: MetaFilter, content: map<string, Value>, cause: Cause, calls: Calls)
  {
    forall i :: 0 <= i < |pattern| ==> KeyPasses(pattern[i].0, pattern[i].1, content, BuildKwargs(cause), calls)
  }

  /** The `when` callback, if any, accepts the cause. */
  predicate WhenPasses(h: ResourceHandler, cause: Cause, calls: Calls)
  {
    h.when.None? || calls.when(h.when.value, BuildKwargs(cause))
  }

  /** What `match` decides: all four filters pass. */
  predicate Matches(h: ResourceHandler, cause: Cause, changedFields: set<FieldPath>, ignoreFields: bool, calls: Calls)
  {
    && MatchesField(h, changedFields, ignoreFields)
    && (h.labels == [] || MetadataMatches(h.labels, LabelsOf(cause), cause, calls))
    && (h.annotations == [] || MetadataMatches(h.annotations, AnnotationsOf(cause), cause, calls))
    && WhenPasses(h, cause, calls)
  }

  /** The keyword arguments of filter callbacks, built on first use and
      shared by all filters of one `match`. */
  class KwargsCache {
    var value: Option<Kwargs>

    constructor()
      ensures value.None?
    {
      value := None;
    }

    /** `if not kwargs: kwargs.update(build_kwargs(cause=cause))` */
    method Fill(cause: Cause)
      requires value.None? || value == Some(BuildKwargs(cause))
      modifies this
      ensures value == Some(BuildKwargs(cause))
    {
      if value.None? {
        value := Some(BuildKwargs(cause));
      }
    }
  }

  /** `_matches_metadata`: the entries are checked in order, the first that
      fails decides, and the cache is filled when a callback is asked. */
  method MatchesMetadata(pattern: MetaFilter, content: map<string, Value>, cache: KwargsCache,
                         cause: Cause, calls: Calls) returns (r: bool)
    requires cache.value.None? || cache.value == Some(BuildKwargs(cause))
    modifies cache
    ensures r == MetadataMatches(pattern, content, cause, calls)
    ensures cache.value.None? || cache.value == Some(BuildKwargs(cause))
    ensures old(cache.value).Some? ==> cache.value == old(cache.value)
  {
    var i := 0;
    while i < |pattern|
      invariant 0 <= i <= |pattern|
      invariant forall j :: 0 <= j < i ==> KeyPasses(pattern[j].0, pattern[j].1, content, BuildKwargs(cause), calls)
      invariant cache.value.None? || cache.value == Some(BuildKwargs(cause))
      invariant old(cache.value).Some? ==> cache.value == old(cache.value)
    {
      var (key, value) := pattern[i];
      if value == Absent && key !in content {
      } else if value == Present && key in content {
      } else if value.Callback? {
        cache.Fill(cause);
        if !calls.meta(value.fn, Get(content, key), cache.value.value) {
          return false;
        }
      } else if key !in content {
        return false;
      } else if !(value.Literal? && content[key] == Str(value.text)) {
        return false;
      }
      i := i + 1;
    }
    return true;
  }

  /** `_matches_filter_callback` */
  method MatchesFilterCallback(h: ResourceHandler, cause: Cause, cache: KwargsCache, calls: Calls) returns (r: bool)
    requires cache.value.None? || cache.value == Some(BuildKwargs(cause))
    modifies cache
    ensures r == WhenPasses(h, cause, calls)
    ensures cache.value.None? || cache.value == Some(BuildKwargs(cause))
  {
    if h.when.None? {
      return true;
    }
    cache.Fill(cause);
    r := calls.when(h.when.value, cache.value.value);
  }

  /** `match`: every filter is evaluated (the list given to `all` is built
      in full), with one fresh kwargs cache. */
  method Match(h: ResourceHandler, cause: Cause, changedFields: set<FieldPath>, ignoreFields: bool,
               calls: Calls) returns (r: bool)
    ensures r == Matches(h, cause, changedFields, ignoreFields, calls)
  {
    var cache := new KwargsCache();
    var fieldOk := MatchesField(h, changedFields, ignoreFields);
    var labelsOk := true;
    if h.labels != [] {
      labelsOk := MatchesMetadata(h.labels, LabelsOf(cause), cache, cause, calls);
    }
    var annotationsOk := true;
    if h.annotations != [] {
      annotationsOk := MatchesMetadata(h.annotations, AnnotationsOf(cause), cache, cause, calls);
    }
    var whenOk := MatchesFilterCallback(h, cause, cache, calls);
    r := fieldOk && labelsOk && annotationsOk && whenOk;
  }

  /** The field filter passes for every handler when fields are ignored or
      the handler has no field; a field-scoped changing handler fails it
      when nothing changed. */
  lemma MatchesFieldCases(h: ResourceHandler, changedFields: set<FieldPath>, ignoreFields: bool)
    ensures ignoreFields ==> MatchesField(h, changedFields, ignoreFields)
    ensures !h.ChangingHandler? || h.field.None? || h.field.value == [] ==> MatchesField(h, changedFields, ignoreFields)
    ensures h.ChangingHandler? && h.field.Some? && h.field.value != [] && changedFields == {} && !ignoreFields
      ==> !MatchesField(h, changedFields, ignoreFields)
  {
  }

  // ---------------------------------------------------------------------
  // Resource handlers: watching, spawning, changing

  /** The fields touched by a cause's diff (`cause.diff or []`). */
  function ChangedFields(cause: Cause): set<FieldPath>
  {
    if cause.ChangingCause? && cause.diff.Some? then
      var d := cause.diff.value;
      set i | 0 <= i < |d| :: d[i].field
    else {}
  }

  predicate WatchingSelected(h: ResourceHandler, cause: Cause, excluded: set<string>, calls: Calls)
  {
    h.id !in excluded && Matches(h, cause, {}, true, calls)
  }

  predicate SpawningSelected(h: ResourceHandler, cause: Cause, excluded: set<string>, calls: Calls)
  {
    h.id !in excluded && Matches(h, cause, {}, false, calls)
  }

  /** The conditions of `ResourceChangingRegistry.iter_handlers`. */
  predicate ChangingSelected(h: ResourceHandler, cause: Cause, excluded: set<string>, calls: Calls)
  {
    && h.ChangingHandler? && cause.ChangingCause?
    && h.id !in excluded
    && (h.reason.None? || h.reason == Some(cause.reason))
    && !(h.initial && !cause.initial)
    && !(h.initial && cause.deleted && !h.deleted)
    && Matches(h, cause, ChangedFields(cause), false, calls)
  }

  function WatchingTo(cause: Cause, excluded: set<string>, calls: Calls): ResourceHandler -> bool
  {
    h => WatchingSelected(h, cause, excluded, calls)
  }

  function SpawningTo(cause: Cause, excluded: set<string>, calls: Calls): ResourceHandler -> bool
  {
    h => SpawningSelected(h, cause, excluded, calls)
  }

  function ChangingTo(cause: Cause, excluded: set<string>, calls: Calls): ResourceHandler -> bool
  {
    h => ChangingSelected(h, cause, excluded, calls)
  }

  /** `ResourceWatchingRegistry.iter_handlers`: fields are ignored. */
  method IterWatchingHandlers(registry: Registry<ResourceHandler>, cause: Cause, excluded: set<string>,
                              calls: Calls) returns (r: seq<ResourceHandler>)
    ensures r == Filter(registry.handlers, WatchingTo(cause, excluded, calls))
  {
    var hs := registry.handlers;
    r := [];
    var i := 0;
    while i < |hs|
      invariant 0 <= i <= |hs|
      invariant r == Filter(hs[..i], WatchingTo(cause, excluded, calls))
    {
      assert hs[..i + 1][..i] == hs[..i];
      if hs[i].id !in excluded {
        var m := Match(hs[i], cause, {}, true, calls);
        if m {
          r := r + [hs[i]];
        }
      }
      i := i + 1;
    }
    assert hs[..i] == hs;
  }

  /** `ResourceSpawningRegistry.iter_handlers` */
  method IterSpawningHandlers(registry: Registry<ResourceHandler>, cause: Cause, excluded: set<string>,
                              calls: Calls) returns (r: seq<ResourceHandler>)
    ensures r == Filter(registry.handlers, SpawningTo(cause, excluded, calls))
  {
    var hs := registry.handlers;
    r := [];
    var i := 0;
    while i < |hs|
      invariant 0 <= i <= |hs|
      invariant r == Filter(hs[..i], SpawningTo(cause, excluded, calls))
    {
      assert hs[..i + 1][..i] == hs[..i];
      if hs[i].id !in excluded {
        var m := Match(hs[i], cause, {}, false, calls);
        if m {
          r := r + [hs[i]];
        }
      }
      i := i + 1;
    }
    assert hs[..i] == hs;
  }

  /** `ResourceChangingRegistry.iter_handlers` */
  method IterChangingHandlers(registry: Registry<ResourceHandler>, cause: Cause, excluded: set<string>,
                              calls: Calls) returns (r: seq<ResourceHandler>)
    ensures r == Filter(registry.handlers, ChangingTo(cause, excluded, calls))
  {
    var hs := registry.handlers;
    var changedFields := ChangedFields(cause);
    r := [];
    var i := 0;
    while i < |hs|
      invariant 0 <= i <= |hs|
      invariant r == Filter(hs[..i], ChangingTo(cause, excluded, calls))
    {
      assert hs[..i + 1][..i] == hs[..i];
      var h := hs[i];
      if h.ChangingHandler? && cause.ChangingCause? && h.id !in excluded {
        if h.reason.None? || h.reason == Some(cause.reason) {
          if h.initial && !cause.initial {
            // initial handlers are skipped for non-initial causes
          } else if h.initial && cause.deleted && !h.deleted {
            // and on deletion, unless marked as used for deletion
          } else {
            var m := Match(h, cause, changedFields, false, calls);
            if m {
              r := r + [h];
            }
          }
        }
      }
      i := i + 1;
    }
    assert hs[..i] == hs;
  }

  /** `ResourceRegistry.get_handlers` of the three registries. */
  method GetWatchingHandlers(registry: Registry<ResourceHandler>, cause: Cause, excluded: set<string>,
                             calls: Calls) returns (r: seq<ResourceHandler>)
    ensures r == Deduplicated(Filter(registry.handlers, WatchingTo(cause, excluded, calls)), ResourceFnOf)
  {
    var selected := IterWatchingHandlers(registry, cause, excluded, calls);
    r := Deduplicate(selected, ResourceFnOf);
  }

  method GetSpawningHandlers(registry: Registry<ResourceHandler>, cause: Cause, excluded: set<string>,
                             calls: Calls) returns (r: seq<ResourceHandler>)
    ensures r == Deduplicated(Filter(registry.handlers, SpawningTo(cause, excluded, calls)), ResourceFnOf)
  {
    var selected := IterSpawningHandlers(registry, cause, excluded, calls);
    r := Deduplicate(selected, ResourceFnOf);
  }

  method GetChangingHandlers(registry: Registry<ResourceHandler>, cause: Cause, excluded: set<string>,
                             calls: Calls) returns (r: seq<ResourceHandler>)
    ensures r == Deduplicated(Filter(registry.handlers, ChangingTo(cause, excluded, calls)), ResourceFnOf)
  {
    var selected := IterChangingHandlers(registry, cause, excluded, calls);
    r := Deduplicate(selected, ResourceFnOf);
  }

  /** Every handler the changing registry returns is a non-excluded one
      whose reason is unset or equal to the cause's; an initial handler
      only comes for an initial cause, and for a deleted cause only when
      it is marked as used for deletion. */
  lemma ChangingHandlersAllowed(hs: seq<ResourceHandler>, cause: Cause, excluded: set<string>,
                                calls: Calls, h: ResourceHandler)
    requires h in Deduplicated(Filter(hs, ChangingTo(cause, excluded, calls)), ResourceFnOf)
    ensures h in hs && h.ChangingHandler? && cause.ChangingCause? && h.id !in excluded
    ensures h.reason.None? || h.reason.value == cause.reason
    ensures h.initial ==> cause.initial
    ensures h.initial && cause.deleted ==> h.deleted
    ensures Matches(h, cause, ChangedFields(cause), false, calls)
  {
    DeduplicatedSubset(Filter(hs, ChangingTo(cause, excluded, calls)), ResourceFnOf, h);
    FilterMembers(hs, ChangingTo(cause, excluded, calls), h);
  }

  /** A non-initial changing handler without a reason, not excluded and
      matching the cause, is yielded whatever the cause's reason. */
  lemma ChangingHandlerWithoutReason(hs: seq<ResourceHandler>, cause: Cause, excluded: set<string>,
                                     calls: Calls, h: ResourceHandler)
    requires h in hs && h.ChangingHandler? && cause.ChangingCause?
    requires h.id !in excluded && h.reason.None? && !h.initial
    requires Matches(h, cause, ChangedFields(cause), false, calls)
    ensures h in Filter(hs, ChangingTo(cause, excluded, calls))
  {
    FilterMembers(hs, ChangingTo(cause, excluded, calls), h);
  }

  /** The watching registry yields exactly the non-excluded handlers that
      match with fields ignored. */
  lemma WatchingHandlersMembers(hs: seq<ResourceHandler>, cause: Cause, excluded: set<string>,
                                calls: Calls, h: ResourceHandler)
    ensures h in Filter(hs, WatchingTo(cause, excluded, calls)) <==>
      h in hs && h.id !in excluded && Matches(h, cause, {}, true, calls)
  {
    FilterMembers(hs, WatchingTo(cause, excluded, calls), h);
  }

  // ---------------------------------------------------------------------
  // Finalizers and extra fields

  /** The handler kinds that carry a `requires_finalizer` flag, with it set. */
  predicate WantsFinalizer(h: ResourceHandler)
  {
    (h.SpawningHandler? || h.ChangingHandler?) && h.requiresFinalizer
  }

  /** The condition checked for each handler by `requires_finalizer`:
      `match` with no changed fields and fields not ignored. */
  predicate FinalizerNeeded(h: ResourceHandler, cause: Cause, excluded: set<string>, calls: Calls)
  {
    h.id !in excluded && WantsFinalizer(h) && Matches(h, cause, {}, false, calls)
  }

  /** `requires_finalizer` of the spawning and changing registries: true iff
      some non-excluded handler requires a finalizer and matches the cause;
      so false for an empty registry. */
  method RequiresFinalizer(registry: Registry<ResourceHandler>, cause: Cause, excluded: set<string>,
                           calls: Calls) returns (r: bool)
    ensures r <==> exists i :: 0 <= i < |registry.handlers| && FinalizerNeeded(registry.handlers[i], cause, excluded, calls)
    ensures registry.handlers == [] ==> !r
  {
    var hs := registry.handlers;
    var i := 0;
    while i < |hs|
      invariant 0 <= i <= |hs|
      invariant forall j :: 0 <= j < i ==> !FinalizerNeeded(hs[j], cause, excluded, calls)
    {
      if hs[i].id !in excluded && WantsFinalizer(hs[i]) {
        var m := Match(hs[i], cause, {}, false, calls);
        if m {
          return true;
        }
      }
      i := i + 1;
    }
    return false;
  }

  /** A handler scoped to a field never asks for a finalizer: the check runs
      with no changed fields. */
  lemma FieldScopedNeedsNoFinalizer(h: ResourceHandler, cause: Cause, excluded: set<string>, calls: Calls)
    requires h.ChangingHandler? && h.field.Some? && h.field.value != []
    ensures !FinalizerNeeded(h, cause, excluded, calls)
  {
    MatchesFieldCases(h, {}, false);
  }

  /** `if handler.field:` in `iter_extra_fields`. */
  predicate HasField(h: ResourceHandler)
  {
    h.ChangingHandler? && h.field.Some? && h.field.value != []
  }

  /** `ResourceChangingRegistry.get_extra_fields`: the fields of all
      field-scoped handlers, and nothing else. */
  method GetExtraFields(registry: Registry<ResourceHandler>) returns (fields: set<FieldPath>)
    ensures forall i :: 0 <= i < |registry.handlers| && HasField(registry.handlers[i]) ==>
      registry.handlers[i].field.value in fields
    ensures forall f :: f in fields ==>
      exists i :: 0 <= i < |registry.handlers| && HasField(registry.handlers[i]) && registry.handlers[i].field.value == f
  {
    var hs := registry.handlers;
    fields := {};
    var i := 0;
    while i < |hs|
      invariant 0 <= i <= |hs|
      invariant forall j :: 0 <= j < i && HasField(hs[j]) ==> hs[j].field.value in fields
      invariant forall f :: f in fields ==> exists j :: 0 <= j < i && HasField(hs[j]) && hs[j].field.value == f
    {
      if HasField(hs[i]) {
        fields := fields + {hs[i].field.value};
      }
      i := i + 1;
    }
  }

  /** `GenericRegistry`: an append-only list of handlers. */
  class Registry<H> {
    var handlers: seq<H>

    constructor()
      ensures handlers == []
    {
      handlers := [];
    }

    /** `bool(registry)` */
    predicate NonEmpty()
      reads this
    {
      handlers != []
    }

    method Append(h: H)
      modifies this
      ensures handlers == old(handlers) + [h]
      ensures NonEmpty()
    {
      handlers := handlers + [h];
    }
  }

  /** The kinds of resource registries an operator keeps per resource. */
  datatype RegistryKind = Watching | Spawning | Changing

  /** `OperatorRegistry`: the activity handlers, and one registry of each
      kind per resource, created on first use as a `defaultdict` does. */
  /** No two resources share a registry. */
  ghost predicate Injective(m: map<Resource, Registry<ResourceHandler>>)
  {
    forall r1, r2 :: r1 in m && r2 in m && r1 != r2 ==> m[r1] != m[r2]
  }

  /** No registry is held by both maps. */
  ghost predicate Disjoint(m1: map<Resource, Registry<ResourceHandler>>, m2: map<Resource, Registry<ResourceHandler>>)
  {
    forall r1, r2 :: r1 in m1 && r2 in m2 ==> m1[r1] != m2[r2]
  }

  /** The registry `x` is held by no entry of `m`. */
  ghost predicate NotHeld(m: map<Resource, Registry<ResourceHandler>>, x: Registry<ResourceHandler>)
  {
    forall r :: r in m ==> m[r] != x
  }

  /** Storing a registry that no map holds yet for a new key keeps the map
      injective and disjoint from another map. */
  lemma AddKeepsDistinct(m: map<Resource, Registry<ResourceHandler>>, key: Resource,
                         x: Registry<ResourceHandler>, other: map<Resource, Registry<ResourceHandler>>)
    requires key !in m && Injective(m) && NotHeld(m, x)
    ensures Injective(m[key := x])
    ensures Disjoint(m, other) && NotHeld(other, x) ==> Disjoint(m[key := x], other) && Disjoint(other, m[key := x])
  {
  }

  class OperatorRegistry {
    var activityHandlers: Registry<ActivityHandler>
    var watching: map<Resource, Registry<ResourceHandler>>
    var spawning: map<Resource, Registry<ResourceHandler>>
    var changing: map<Resource, Registry<ResourceHandler>>

    /** Every resource registry held is its own object: no two entries of
        the three maps share a registry, as each `defaultdict` entry is
        created on its own. (The activity registry holds another handler
        type, so it is a different object by its type.) */
    ghost predicate Valid()
      reads this
    {
      && Injective(watching) && Injective(spawning) && Injective(changing)
      && Disjoint(watching, spawning) && Disjoint(watching, changing) && Disjoint(spawning, changing)
    }

    constructor()
      ensures Valid()
      ensures fresh(activityHandlers) && activityHandlers.handlers == []
      ensures watching == map[] && spawning == map[] && changing == map[]
    {
      activityHandlers := new Registry();
      watching := map[];
      spawning := map[];
      changing := map[];
    }

    /** `OperatorRegistry.resources`: a resource is known iff a registry of
        some kind exists for it. */
    function KnownResources(): (r: set<Resource>)
      reads this
      ensures forall res :: res in r <==> res in watching || res in spawning || res in changing
    {
      watching.Keys + spawning.Keys + changing.Keys
    }

    function RegistriesOf(kind: RegistryKind): map<Resource, Registry<ResourceHandler>>
      reads this
    {
      match kind
      case Watching => watching
      case Spawning => spawning
      case Changing => changing
    }

    /** Indexing one of the `defaultdict`s: an existing registry is returned
        as is; otherwise a new empty registry is stored for the resource,
        which becomes known. The other maps do not change. */
    method RegistryFor(kind: RegistryKind, resource: Resource) returns (registry: Registry<ResourceHandler>)
      requires Valid()
      modifies this
      ensures Valid()
      ensures resource in RegistriesOf(kind) && RegistriesOf(kind)[resource] == registry
      ensures resource in old(RegistriesOf(kind)) ==>
        registry == old(RegistriesOf(kind))[resource] && RegistriesOf(kind) == old(RegistriesOf(kind))
      ensures resource !in old(RegistriesOf(kind)) ==>
        fresh(registry) && registry.handlers == [] && RegistriesOf(kind) == old(RegistriesOf(kind))[resource := registry]
      ensures forall k :: k != kind ==> RegistriesOf(k) == old(RegistriesOf(k))
      ensures activityHandlers == old(activityHandlers)
      ensures KnownResources() == old(KnownResources()) + {resource}
    {
      var m := RegistriesOf(kind);
      if resource in m {
        registry := m[resource];
      } else {
        registry := new Registry();
        assert NotHeld(watching, registry) && NotHeld(spawning, registry) && NotHeld(changing, registry);
        match kind
        case Watching =>
          AddKeepsDistinct(watching, resource, registry, spawning);
          AddKeepsDistinct(watching, resource, registry, changing);
          watching := watching[resource := registry];
        case Spawning =>
          AddKeepsDistinct(spawning, resource, registry, watching);
          AddKeepsDistinct(spawning, resource, registry, changing);
          spawning := spawning[resource := registry];
        case Changing =>
          AddKeepsDistinct(changing, resource, registry, watching);
          AddKeepsDistinct(changing, resource, registry, spawning);
          changing := changing[resource := registry];
      }
    }
  }
}
