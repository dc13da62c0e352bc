/** Nested mappings read through `.get(key, {})` chains and written through
    `.setdefault(key, {})` chains, as the progress records are. */
module Nested {
  import opened Dicts

  /** A value read as a mapping: mappings as they are, anything else empty. */
  function AsMap(v: Value): map<string, Value>
  {
    if v.Map? then v.entries else map[]
  }

  /** `m.get(p0, {}).get(p1, {})...`: the mapping found at `path`, or the
      empty mapping where a level is missing. */
  function AtPath(m: map<string, Value>, path: FieldPath): map<string, Value>
  {
    AsMap(Resolve(Map(m), path))
  }

  /** A key found in the mapping one level below `path` is a key of the
      mapping at `path`. */
  lemma AtPathChild(m: map<string, Value>, path: FieldPath, k: string)
    requires AtPath(m, path + [k]) != map[]
    ensures k in AtPath(m, path)
  {
    ResolveAppend(Map(m), path, [k]);
  }

  /** `m.setdefault(p0, {}).setdefault(p1, {})...` succeeds: every level on
      `path` that already exists is a mapping (Python fails on any other). */
  predicate Writable(m: map<string, Value>, path: FieldPath)
    decreases |path|
  {
    path == [] || (path[0] in m ==> m[path[0]].Map? && Writable(m[path[0]].entries, path[1..]))
  }

  /** `m.setdefault(p0, {})....setdefault(pn, {}).update(updates)`: the
      missing levels are created, and the mapping at `path` receives the
      updates, later keys overwriting earlier ones. */
  function UpdateAt(m: map<string, Value>, path: FieldPath, updates: map<string, Value>): (r: map<string, Value>)
    requires Writable(m, path)
    ensures Resolve(Map(r), path) == Map(AtPath(m, path) + updates)
    ensures Writable(r, path)
    decreases |path|
  {
    if path == [] then m + updates
    else
      var k := path[0];
      m[k := Map(UpdateAt(AsMap(Get(m, k)), path[1..], updates))]
  }

  /** Writing at `path` changes nothing at a field that is neither above nor
      below `path`. */
  lemma {:induction false} UpdateAtFrame(m: map<string, Value>, path: FieldPath, updates: map<string, Value>, q: FieldPath)
    requires Writable(m, path)
    requires !(q <= path) && !(path <= q)
    ensures Resolve(Map(UpdateAt(m, path, updates)), q) == Resolve(Map(m), q)
    decreases |path|
  {
    var k := path[0];
    if q[0] == k {
      UpdateAtFrame(AsMap(Get(m, k)), path[1..], updates, q[1..]);
    }
  }

  /** Two updates of the same mapping are one update with both. */
  lemma {:induction false} UpdateAtTwice(m: map<string, Value>, path: FieldPath, u1: map<string, Value>, u2: map<string, Value>)
    requires Writable(m, path)
    ensures UpdateAt(UpdateAt(m, path, u1), path, u2) == UpdateAt(m, path, u1 + u2)
    decreases |path|
  {
    if path == [] {
      UnionTwice(m, u1, u2);
    } else {
      var k := path[0];
      var sub := AsMap(Get(m, k));
      var m1 := m[k := Map(UpdateAt(sub, path[1..], u1))];
      assert AsMap(Get(m1, k)) == UpdateAt(sub, path[1..], u1);
      UpdateAtTwice(sub, path[1..], u1, u2);
      StoreTwice(m, k, Map(UpdateAt(sub, path[1..], u1)), Map(UpdateAt(sub, path[1..], u1 + u2)));
    }
  }

  lemma UnionTwice(m: map<string, Value>, u1: map<string, Value>, u2: map<string, Value>)
    ensures m + u1 + u2 == m + (u1 + u2)
  {
  }

  lemma StoreTwice(m: map<string, Value>, k: string, x: Value, y: Value)
    ensures m[k := x][k := y] == m[k := y]
  {
  }

  /** A mutable dictionary (the patch, or a body that is written into). */
  class Dict {
    var items: map<string, Value>

    constructor(items: map<string, Value>)
      ensures this.items == items
    {
      this.items := items;
    }
  }
}

/** A JSON merge patch, as defined in RFC 7386, applied by the API server to
    the object when the operator sends its patch. */
module MergePatch {
  import opened Dicts
  import opened Nested

  /** Section 2 of RFC 7386: a mapping in the patch is merged key by key, a
      `null` removing the key; anything else replaces the target. */
  function MergeValue(target: Value, patch: Value): Value
    decreases patch, 1
  {
    if patch.Map? then Map(MergeMaps(AsMap(target), patch)) else patch
  }

  function MergeMaps(target: map<string, Value>, patch: Value): map<string, Value>
    requires patch.Map?
    decreases patch, 0
  {
    map k | k in target.Keys + patch.entries.Keys && (k in patch.entries ==> patch.entries[k] != Null) ::
      if k in patch.entries then MergeValue(Get(target, k), patch.entries[k]) else target[k]
  }

  /** The body after the patch is applied. */
  function Apply(body: map<string, Value>, patch: map<string, Value>): map<string, Value>
  {
    MergeMaps(body, Map(patch))
  }

  /** Where the patch has a mapping at `path`, the patched body has at `path`
      the body's mapping there merged with the patch's. */
  lemma {:induction false} ApplyAt(body: map<string, Value>, patch: map<string, Value>, path: FieldPath)
    requires Resolve(Map(patch), path).Map?
    ensures AtPath(Apply(body, patch), path) == MergeMaps(AtPath(body, path), Resolve(Map(patch), path))
    decreases |path|
  {
    if path != [] {
      var k, rest := path[0], path[1..];
      var pk := patch[k];
      if rest != [] {
        assert pk.Map?;
      }
      assert pk.Map?;
      var bk := AsMap(Get(body, k));
      ApplyAt(bk, pk.entries, rest);
      assert Map(pk.entries) == pk;
      assert k in Apply(body, patch) && Apply(body, patch)[k] == MergeValue(Get(body, k), pk);
      assert MergeValue(Get(body, k), pk) == Map(MergeMaps(bk, pk));
      assert Apply(body, patch)[k] == Map(Apply(bk, pk.entries));
      assert Resolve(Map(Apply(body, patch)), path) == Resolve(Map(Apply(bk, pk.entries)), rest);
      if k in body && body[k].Map? {
        assert Map(bk) == body[k];
        assert Resolve(Map(body), path) == Resolve(body[k], rest);
      } else if rest != [] {
        assert Resolve(Map(body), path) == Null;
        assert Resolve(Map(bk), rest) == Null;
      } else {
        assert bk == map[];
        assert Resolve(Map(body), path) == Get(body, k);
      }
      assert AtPath(bk, rest) == AtPath(body, path);
      assert Resolve(Map(patch), path) == Resolve(Map(pk.entries), rest);
    }
  }

  /** A key the patch sets to `null` is gone from the result. */
  lemma MergeRemovesNull(target: map<string, Value>, patch: map<string, Value>, k: string)
    requires k in patch && patch[k] == Null
    ensures k !in MergeMaps(target, Map(patch))
  {
  }

  /** A key the patch sets to a value that is neither `null` nor a mapping
      has exactly that value in the result. */
  lemma MergeSetsScalar(target: map<string, Value>, patch: map<string, Value>, k: string)
    requires k in patch && patch[k] != Null && !patch[k].Map?
    ensures k in MergeMaps(target, Map(patch)) && MergeMaps(target, Map(patch))[k] == patch[k]
  {
  }
}
