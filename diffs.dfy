/** Structural diffs of resource bodies (kopf/structs/diffs.py): the
    recursive diff of two values, and the reduction of a diff to the part
    that concerns one field.

    The source walks the keys of two mappings through frozensets, so the
    order of the items within one group of keys is unspecified. Here a key
    is picked from the remaining set by a choice that Dafny fixes once per
    set; everything proved below holds whatever that order is, except where
    a lemma equates two diffs whose keys were picked from the same sets. */
module Diffs {
  import opened Wrappers
  import opened Dicts

  datatype DiffOperation = Add | Change | Remove

  /** One change: the operation, the field path, and the old and new values
      (`Null` on the side where the field is absent). */
  datatype DiffItem = DiffItem(operation: DiffOperation, field: FieldPath, oldValue: Value, newValue: Value)

  /** Python's `type(v)`, as far as `diff_iter` compares types. */
  function TypeOf(v: Value): nat
  {
    match v
    case Null => 0
    case Bool(_) => 1
    case Int(_) => 2
    case Str(_) => 3
    case List(_) => 4
    case Map(_) => 5
  }

  /** The next key taken from a set of keys that remain to be walked. */
  ghost function Pick(keys: set<string>): (k: string)
    requires keys != {}
    ensures k in keys
  {
    var k :| k in keys; k
  }

  /** `diff_iter(a, b, path)`. Equal values give nothing; an absent side gives
      one addition or removal; values of different types, and unequal values
      that are not mappings (lists included), give one change; two mappings
      give the added keys, then the removed keys, then the diffs of the
      common keys, each one level deeper. */
  ghost function DiffIter(a: Value, b: Value, path: FieldPath): seq<DiffItem>
    decreases a, 2
  {
    if a == b then []
    else if a == Null then [DiffItem(Add, path, a, b)]
    else if b == Null then [DiffItem(Remove, path, a, b)]
    else if TypeOf(a) != TypeOf(b) then [DiffItem(Change, path, a, b)]
    else if a.Map? then
      AddedItems(b.entries, b.entries.Keys - a.entries.Keys, path)
      + RemovedItems(a.entries, a.entries.Keys - b.entries.Keys, path)
      + CommonItems(a, b, a.entries.Keys * b.entries.Keys, path)
    else [DiffItem(Change, path, a, b)]
  }

  /** The items of `diff_iter(None, m[key], path + (key,))` over `keys`: one
      addition per key whose new value is not `None`. */
  ghost function AddedItems(m: map<string, Value>, keys: set<string>, path: FieldPath): (r: seq<DiffItem>)
    requires keys <= m.Keys
    ensures forall it :: it in r <==>
      exists k :: k in keys && m[k] != Null && it == DiffItem(Add, path + [k], Null, m[k])
    decreases keys
  {
    if keys == {} then []
    else
      var k := Pick(keys);
      var rest := AddedItems(m, keys - {k}, path);
      (if m[k] == Null then [] else [DiffItem(Add, path + [k], Null, m[k])]) + rest
  }

  /** The items of `diff_iter(m[key], None, path + (key,))` over `keys`: one
      removal per key whose old value is not `None`. */
  ghost function RemovedItems(m: map<string, Value>, keys: set<string>, path: FieldPath): (r: seq<DiffItem>)
    requires keys <= m.Keys
    ensures forall it :: it in r <==>
      exists k :: k in keys && m[k] != Null && it == DiffItem(Remove, path + [k], m[k], Null)
    decreases keys
  {
    if keys == {} then []
    else
      var k := Pick(keys);
      var rest := RemovedItems(m, keys - {k}, path);
      (if m[k] == Null then [] else [DiffItem(Remove, path + [k], m[k], Null)]) + rest
  }

  /** The items of `diff_iter(a[key], b[key], path + (key,))` over `keys`. */
  ghost function CommonItems(a: Value, b: Value, keys: set<string>, path: FieldPath): (r: seq<DiffItem>)
    requires a.Map? && b.Map? && keys <= a.entries.Keys && keys <= b.entries.Keys
    ensures forall it :: it in r <==>
      exists k :: k in keys && it in DiffIter(a.entries[k], b.entries[k], path + [k])
    decreases a, 1, keys
  {
    if keys == {} then []
    else
      var k := Pick(keys);
      var rest := CommonItems(a, b, keys - {k}, path);
      DiffIter(a.entries[k], b.entries[k], path + [k]) + rest
  }

  /** An item that truly records a change between `a` and `b` seen from `path`:
      it lies at or below `path`, carries the values found there on each side,
      those values differ, and the operation says which side is absent. */
  ghost predicate Sound(a: Value, b: Value, path: FieldPath, it: DiffItem)
  {
    && path <= it.field
    && it.oldValue == Resolve(a, it.field[|path|..])
    && it.newValue == Resolve(b, it.field[|path|..])
    && it.oldValue != it.newValue
    && (it.operation == Add <==> it.oldValue == Null)
    && (it.operation == Remove <==> it.newValue == Null)
  }

  /** Every item of a diff records a real change at its own path. */
  lemma {:induction false} DiffIterSound(a: Value, b: Value, path: FieldPath)
    ensures forall it :: it in DiffIter(a, b, path) ==> Sound(a, b, path, it)
    decreases a
  {
    if a != b && a != Null && b != Null && TypeOf(a) == TypeOf(b) && a.Map? {
      var am, bm := a.entries, b.entries;
      forall it | it in DiffIter(a, b, path) ensures Sound(a, b, path, it) {
        if it in AddedItems(bm, bm.Keys - am.Keys, path) {
          var k :| k in bm.Keys - am.Keys && bm[k] != Null && it == DiffItem(Add, path + [k], Null, bm[k]);
          KeyItemSound(a, b, path, k, it);
        } else if it in RemovedItems(am, am.Keys - bm.Keys, path) {
          var k :| k in am.Keys - bm.Keys && am[k] != Null && it == DiffItem(Remove, path + [k], am[k], Null);
          KeyItemSound(a, b, path, k, it);
        } else {
          var k :| k in am.Keys * bm.Keys && it in DiffIter(am[k], bm[k], path + [k]);
          DiffIterSound(am[k], bm[k], path + [k]);
          SoundBelowKey(a, b, path, k, it);
        }
      }
    }
  }

  /** An addition or removal of one key of two mappings records a change. */
  lemma KeyItemSound(a: Value, b: Value, path: FieldPath, k: string, it: DiffItem)
    requires a.Map? && b.Map? && a != b
    requires || (k in b.entries.Keys - a.entries.Keys && b.entries[k] != Null
                 && it == DiffItem(Add, path + [k], Null, b.entries[k]))
             || (k in a.entries.Keys - b.entries.Keys && a.entries[k] != Null
                 && it == DiffItem(Remove, path + [k], a.entries[k], Null))
    ensures Sound(a, b, path, it)
  {
    assert it.field[|path|..] == [k];
  }

  /** An item that records a change below one common key also records it
      from the mapping above. */
  lemma SoundBelowKey(a: Value, b: Value, path: FieldPath, k: string, it: DiffItem)
    requires a.Map? && b.Map? && k in a.entries && k in b.entries
    requires Sound(a.entries[k], b.entries[k], path + [k], it)
    ensures Sound(a, b, path, it)
  {
    var rel := it.field[|path| + 1..];
    assert it.field[|path|..] == [k] + rel;
    assert it.field[|path + [k]|..] == rel;
  }

  /** The diff of two mappings, key by key: every item lies strictly below
      `path`, under the key it was produced for; an added key gives an
      addition, a removed key a removal, and a common key the items of its
      own diff. */
  lemma {:induction false} MapDiffByKey(a: Value, b: Value, path: FieldPath)
    requires a.Map? && b.Map?
    ensures forall it :: it in DiffIter(a, b, path) ==>
      && |path| < |it.field| && it.field[..|path|] == path
      && var k := it.field[|path|];
         || (k in b.entries.Keys - a.entries.Keys && it == DiffItem(Add, path + [k], Null, b.entries[k]))
         || (k in a.entries.Keys - b.entries.Keys && it == DiffItem(Remove, path + [k], a.entries[k], Null))
         || (k in a.entries.Keys * b.entries.Keys && it in DiffIter(a.entries[k], b.entries[k], path + [k]))
  {
    var am, bm := a.entries, b.entries;
    forall it | it in DiffIter(a, b, path)
      ensures && |path| < |it.field| && it.field[..|path|] == path
              && var k := it.field[|path|];
              || (k in bm.Keys - am.Keys && it == DiffItem(Add, path + [k], Null, bm[k]))
              || (k in am.Keys - bm.Keys && it == DiffItem(Remove, path + [k], am[k], Null))
              || (k in am.Keys * bm.Keys && it in DiffIter(am[k], bm[k], path + [k]))
    {
      if it in AddedItems(bm, bm.Keys - am.Keys, path) {
        var k :| k in bm.Keys - am.Keys && bm[k] != Null && it == DiffItem(Add, path + [k], Null, bm[k]);
        assert it.field[|path|] == k;
      } else if it in RemovedItems(am, am.Keys - bm.Keys, path) {
        var k :| k in am.Keys - bm.Keys && am[k] != Null && it == DiffItem(Remove, path + [k], am[k], Null);
        assert it.field[|path|] == k;
      } else {
        var k :| k in am.Keys * bm.Keys && it in DiffIter(am[k], bm[k], path + [k]);
        DiffIterSound(am[k], bm[k], path + [k]);
        assert (path + [k]) <= it.field;
        assert it.field[|path|] == (path + [k])[|path|] == k;
      }
    }
  }

  /** Conversely, the diff of two mappings holds an addition for every added
      key, a removal for every removed key (unless its value is `None`), and
      every item of the diff of every common key. */
  lemma MapDiffHasEveryKey(a: Value, b: Value, path: FieldPath)
    requires a.Map? && b.Map?
    ensures forall k :: k in b.entries.Keys - a.entries.Keys && b.entries[k] != Null ==>
      DiffItem(Add, path + [k], Null, b.entries[k]) in DiffIter(a, b, path)
    ensures forall k :: k in a.entries.Keys - b.entries.Keys && a.entries[k] != Null ==>
      DiffItem(Remove, path + [k], a.entries[k], Null) in DiffIter(a, b, path)
    ensures forall k, it :: k in a.entries.Keys * b.entries.Keys && it in DiffIter(a.entries[k], b.entries[k], path + [k]) ==>
      it in DiffIter(a, b, path)
  {
    if a == b {
      forall k | k in a.entries.Keys ensures DiffIter(a.entries[k], b.entries[k], path + [k]) == [] {
      }
    }
  }

  /** The diff misses no change: wherever the two values differ, and they are
      not both mappings there, some item lies at that field or above it. */
  lemma {:induction false} DiffIterComplete(a: Value, b: Value, path: FieldPath, rel: FieldPath)
    requires Resolve(a, rel) != Resolve(b, rel)
    requires !(Resolve(a, rel).Map? && Resolve(b, rel).Map?)
    ensures exists it :: it in DiffIter(a, b, path) && it.field <= path + rel
    decreases |rel|
  {
    assert a != b;
    if a == Null || b == Null || TypeOf(a) != TypeOf(b) || !a.Map? {
      var it := DiffIter(a, b, path)[0];
      assert it in DiffIter(a, b, path) && it.field == path;
    } else {
      var am, bm := a.entries, b.entries;
      assert rel != [];
      var k, rest := rel[0], rel[1..];
      assert path + rel == (path + [k]) + rest;
      MapDiffHasEveryKey(a, b, path);
      if k in am && k in bm {
        DiffIterComplete(am[k], bm[k], path + [k], rest);
        var it :| it in DiffIter(am[k], bm[k], path + [k]) && it.field <= path + [k] + rest;
        assert it in DiffIter(a, b, path);
      } else if k in bm {
        assert bm[k] != Null;
        var it := DiffItem(Add, path + [k], Null, bm[k]);
        assert it in DiffIter(a, b, path);
      } else {
        assert k in am && am[k] != Null;
        var it := DiffItem(Remove, path + [k], am[k], Null);
        assert it in DiffIter(a, b, path);
      }
    }
  }

  /** Equal values, and in particular `None` against `None`, produce no items. */
  lemma NoDiffOfEqual(a: Value, path: FieldPath)
    ensures DiffIter(a, a, path) == []
  {
  }

  /** A value appearing from `None` is one addition; disappearing, one removal;
      and unequal values of different types, or unequal values that are not
      mappings (lists included), are one change, all at the starting path. */
  lemma SingleItemDiffs(a: Value, b: Value, path: FieldPath)
    requires a != b
    ensures a == Null ==> DiffIter(a, b, path) == [DiffItem(Add, path, Null, b)]
    ensures b == Null ==> DiffIter(a, b, path) == [DiffItem(Remove, path, a, Null)]
    ensures a != Null && b != Null && (TypeOf(a) != TypeOf(b) || !a.Map?) ==>
      DiffIter(a, b, path) == [DiffItem(Change, path, a, b)]
  {
  }

  /** A diff keeps its own field path; integer indexing reads its items. */
  datatype Diff = Diff(items: seq<DiffItem>, path: FieldPath)
  {
    /** `d[i]` for an integer `i`: Python's tuple indexing, negative indices
        counting from the end, `None` standing for `IndexError`. */
    function At(i: int): (r: Option<DiffItem>)
      ensures r.Some? <==> -|items| <= i < |items|
      ensures 0 <= i < |items| ==> r == Some(items[i])
      ensures -|items| <= i < 0 ==> r == Some(items[|items| + i])
      ensures r.Some? ==> r.value in items
    {
      if 0 <= i < |items| then Some(items[i])
      else if -|items| <= i < 0 then Some(items[|items| + i])
      else None
    }

    /** `d[field]` for an already parsed field: the diff reduced to that field,
        remembering the longer path. */
    ghost function Select(field: FieldPath): Diff
    {
      Diff(ReduceIter(items, field), path + field)
    }
  }

  /** `Diff.build(a, b)`. */
  ghost function Build(a: Value, b: Value): Diff
  {
    Diff(DiffIter(a, b, []), [])
  }

  /** `EMPTY = diff(None, None)`: no items, at the root. */
  lemma EmptyDiff()
    ensures Build(Null, Null) == Diff([], [])
  {
  }

  /** One item of `reduce_iter(d, path)`. */
  ghost function ReduceItem(it: DiffItem, path: FieldPath): seq<DiffItem>
  {
    if path == [] then [it]
    else if path <= it.field then [DiffItem(it.operation, it.field[|path|..], it.oldValue, it.newValue)]
    else if it.field <= path then
      var tail := path[|it.field|..];
      DiffIter(Resolve(it.oldValue, tail), Resolve(it.newValue, tail), [])
    else []
  }

  /** `reduce_iter(d, path)`: the items, in order, each reduced to `path`. */
  ghost function ReduceIter(items: seq<DiffItem>, path: FieldPath): seq<DiffItem>
    decreases |items|
  {
    if items == [] then [] else ReduceItem(items[0], path) + ReduceIter(items[1..], path)
  }

  /** Reducing to the root returns every item unchanged. */
  lemma {:induction false} ReduceToRoot(items: seq<DiffItem>)
    ensures ReduceIter(items, []) == items
    decreases |items|
  {
    if items != [] {
      ReduceToRoot(items[1..]);
      assert items == [items[0]] + items[1..];
    }
  }

  /** Reduction works item by item. */
  lemma {:induction false} ReduceConcat(x: seq<DiffItem>, y: seq<DiffItem>, path: FieldPath)
    ensures ReduceIter(x + y, path) == ReduceIter(x, path) + ReduceIter(y, path)
    decreases |x|
  {
    if x == [] {
      assert x + y == y;
    } else {
      assert (x + y)[0] == x[0];
      assert (x + y)[1..] == x[1..] + y;
      ReduceConcat(x[1..], y, path);
    }
  }

  /** Items at or below `path` are kept relative to it; items on unrelated
      fields are dropped; and an item above `path` whose values are both
      absent at `path` gives nothing, not a change from `None` to `None`. */
  lemma ReduceItemCases(it: DiffItem, path: FieldPath)
    requires path != []
    ensures path <= it.field ==>
      ReduceItem(it, path) == [DiffItem(it.operation, it.field[|path|..], it.oldValue, it.newValue)]
    ensures !(path <= it.field) && !(it.field <= path) ==> ReduceItem(it, path) == []
    ensures (it.field < path && Resolve(it.oldValue, path[|it.field|..]) == Null
             && Resolve(it.newValue, path[|it.field|..]) == Null) ==> ReduceItem(it, path) == []
  {
  }
}

module DiffReduction {
  import opened Dicts
  import opened Diffs

  /** An item moved down under `p`. */
  function Shift(p: FieldPath, it: DiffItem): DiffItem
  {
    DiffItem(it.operation, p + it.field, it.oldValue, it.newValue)
  }

  /** Every item moved down under `p`. */
  function Prefixed(p: FieldPath, items: seq<DiffItem>): (r: seq<DiffItem>)
    ensures |r| == |items|
    ensures forall i :: 0 <= i < |items| ==> r[i] == Shift(p, items[i])
  {
    seq(|items|, i requires 0 <= i < |items| => Shift(p, items[i]))
  }

  lemma PrefixedConcat(p: FieldPath, x: seq<DiffItem>, y: seq<DiffItem>)
    ensures Prefixed(p, x + y) == Prefixed(p, x) + Prefixed(p, y)
  {
    assert forall i :: 0 <= i < |x| ==> (x + y)[i] == x[i];
    assert forall i :: |x| <= i < |x| + |y| ==> (x + y)[i] == y[i - |x|];
  }

  lemma PrefixedTwice(p: FieldPath, q: FieldPath, items: seq<DiffItem>)
    ensures Prefixed(p, Prefixed(q, items)) == Prefixed(p + q, items)
  {
    forall i | 0 <= i < |items| ensures p + (q + items[i].field) == (p + q) + items[i].field {
    }
  }

  /** A diff started at `path` is the diff started at the root with every
      item moved under `path`. */
  lemma {:induction false} DiffIterShift(a: Value, b: Value, p: FieldPath)
    ensures DiffIter(a, b, p) == Prefixed(p, DiffIter(a, b, []))
    decreases a, 2
  {
    if a == b {
    } else if a == Null || b == Null || TypeOf(a) != TypeOf(b) || !a.Map? {
      assert p + [] == p;
    } else {
      var am, bm := a.entries, b.entries;
      AddedShift(bm, bm.Keys - am.Keys, p);
      RemovedShift(am, am.Keys - bm.Keys, p);
      CommonShift(a, b, am.Keys * bm.Keys, p);
      var x, y, z := AddedItems(bm, bm.Keys - am.Keys, []),
        RemovedItems(am, am.Keys - bm.Keys, []), CommonItems(a, b, am.Keys * bm.Keys, []);
      PrefixedConcat(p, x + y, z);
      PrefixedConcat(p, x, y);
    }
  }

  lemma {:induction false} AddedShift(m: map<string, Value>, keys: set<string>, p: FieldPath)
    requires keys <= m.Keys
    ensures AddedItems(m, keys, p) == Prefixed(p, AddedItems(m, keys, []))
    decreases keys
  {
    if keys != {} {
      var k := Pick(keys);
      AddedShift(m, keys - {k}, p);
      var c := if m[k] == Null then [] else [DiffItem(Add, [] + [k], Null, m[k])];
      assert p + ([] + [k]) == p + [k];
      assert (if m[k] == Null then [] else [DiffItem(Add, p + [k], Null, m[k])]) == Prefixed(p, c);
      PrefixedConcat(p, c, AddedItems(m, keys - {k}, []));
    }
  }

  lemma {:induction false} RemovedShift(m: map<string, Value>, keys: set<string>, p: FieldPath)
    requires keys <= m.Keys
    ensures RemovedItems(m, keys, p) == Prefixed(p, RemovedItems(m, keys, []))
    decreases keys
  {
    if keys != {} {
      var k := Pick(keys);
      RemovedShift(m, keys - {k}, p);
      var c := if m[k] == Null then [] else [DiffItem(Remove, [] + [k], m[k], Null)];
      assert p + ([] + [k]) == p + [k];
      assert (if m[k] == Null then [] else [DiffItem(Remove, p + [k], m[k], Null)]) == Prefixed(p, c);
      PrefixedConcat(p, c, RemovedItems(m, keys - {k}, []));
    }
  }

  lemma {:induction false} CommonShift(a: Value, b: Value, keys: set<string>, p: FieldPath)
    requires a.Map? && b.Map? && keys <= a.entries.Keys && keys <= b.entries.Keys
    ensures CommonItems(a, b, keys, p) == Prefixed(p, CommonItems(a, b, keys, []))
    decreases a, 1, keys
  {
    if keys != {} {
      var k := Pick(keys);
      var x, y := a.entries[k], b.entries[k];
      CommonShift(a, b, keys - {k}, p);
      DiffIterShift(x, y, p + [k]);
      DiffIterShift(x, y, [] + [k]);
      PrefixedTwice(p, [k], DiffIter(x, y, []));
      assert [] + [k] == [k];
      PrefixedConcat(p, DiffIter(x, y, [] + [k]), CommonItems(a, b, keys - {k}, []));
    }
  }

  /** Reducing an item moved under `[k]` to `[k] + rest` is reducing the
      original item to `rest`. */
  lemma ReduceItemShift(k: string, rest: FieldPath, it: DiffItem)
    ensures ReduceItem(Shift([k], it), [k] + rest) == ReduceItem(it, rest)
  {
    var f, g, q := it.field, [k] + it.field, [k] + rest;
    assert q <= g <==> rest <= f by {
      if rest <= f { assert q == g[..|q|]; }
      if q <= g { assert rest == q[1..] == g[1..|q|] == f[..|rest|]; }
    }
    assert g <= q <==> f <= rest by {
      if f <= rest { assert g == q[..|g|]; }
      if g <= q { assert f == g[1..] == q[1..|g|] == rest[..|f|]; }
    }
    if rest == [] {
      assert g[|q|..] == f;
    } else {
      if rest <= f { assert g[|q|..] == f[|rest|..]; }
      if f <= rest { assert q[|g|..] == rest[|f|..]; }
    }
  }

  lemma {:induction false} ReducePrefixed(k: string, rest: FieldPath, items: seq<DiffItem>)
    ensures ReduceIter(Prefixed([k], items), [k] + rest) == ReduceIter(items, rest)
    decreases |items|
  {
    if items != [] {
      assert Prefixed([k], items)[1..] == Prefixed([k], items[1..]);
      ReduceItemShift(k, rest, items[0]);
      ReducePrefixed(k, rest, items[1..]);
    }
  }

  /** Items that each reduce to nothing reduce to nothing together. */
  lemma {:induction false} ReduceAllDropped(items: seq<DiffItem>, q: FieldPath)
    requires forall it :: it in items ==> ReduceItem(it, q) == []
    ensures ReduceIter(items, q) == []
    decreases |items|
  {
    if items != [] {
      ReduceAllDropped(items[1..], q);
    }
  }

  /** The part of the diff of two mappings produced for key `k`. */
  ghost function KeyChunk(x: map<string, Value>, y: map<string, Value>, k: string): seq<DiffItem>
  {
    DiffIter(Get(x, k), Get(y, k), [k])
  }

  /** The part produced for a key other than the first segment of `q`
      reduces to nothing. */
  lemma OtherKeyDropped(x: map<string, Value>, y: map<string, Value>, k: string, q: FieldPath)
    requires q != [] && k != q[0]
    ensures ReduceIter(KeyChunk(x, y, k), q) == []
  {
    DiffIterSound(Get(x, k), Get(y, k), [k]);
    forall it | it in KeyChunk(x, y, k) ensures ReduceItem(it, q) == [] {
      assert [k] <= it.field;
      assert it.field[0] == k;
    }
    ReduceAllDropped(KeyChunk(x, y, k), q);
  }

  lemma {:induction false} AddedReduce(x: map<string, Value>, y: map<string, Value>, keys: set<string>, q: FieldPath)
    requires q != [] && keys <= y.Keys - x.Keys
    ensures ReduceIter(AddedItems(y, keys, []), q) ==
      if q[0] in keys then ReduceIter(KeyChunk(x, y, q[0]), q) else []
    decreases keys
  {
    if keys != {} {
      var k := Pick(keys);
      var c := if y[k] == Null then [] else [DiffItem(Add, [] + [k], Null, y[k])];
      assert [] + [k] == [k];
      assert c == KeyChunk(x, y, k);
      AddedReduce(x, y, keys - {k}, q);
      ReduceConcat(c, AddedItems(y, keys - {k}, []), q);
      if k != q[0] {
        OtherKeyDropped(x, y, k, q);
      }
    }
  }

  lemma {:induction false} RemovedReduce(x: map<string, Value>, y: map<string, Value>, keys: set<string>, q: FieldPath)
    requires q != [] && keys <= x.Keys - y.Keys
    ensures ReduceIter(RemovedItems(x, keys, []), q) ==
      if q[0] in keys then ReduceIter(KeyChunk(x, y, q[0]), q) else []
    decreases keys
  {
    if keys != {} {
      var k := Pick(keys);
      var c := if x[k] == Null then [] else [DiffItem(Remove, [] + [k], x[k], Null)];
      assert [] + [k] == [k];
      assert c == KeyChunk(x, y, k);
      RemovedReduce(x, y, keys - {k}, q);
      ReduceConcat(c, RemovedItems(x, keys - {k}, []), q);
      if k != q[0] {
        OtherKeyDropped(x, y, k, q);
      }
    }
  }

  lemma {:induction false} CommonReduce(a: Value, b: Value, keys: set<string>, q: FieldPath)
    requires a.Map? && b.Map? && q != [] && keys <= a.entries.Keys * b.entries.Keys
    ensures ReduceIter(CommonItems(a, b, keys, []), q) ==
      if q[0] in keys then ReduceIter(KeyChunk(a.entries, b.entries, q[0]), q) else []
    decreases keys
  {
    if keys != {} {
      var k := Pick(keys);
      var c := DiffIter(a.entries[k], b.entries[k], [] + [k]);
      assert [] + [k] == [k];
      assert c == KeyChunk(a.entries, b.entries, k);
      CommonReduce(a, b, keys - {k}, q);
      ReduceConcat(c, CommonItems(a, b, keys - {k}, []), q);
      if k != q[0] {
        OtherKeyDropped(a.entries, b.entries, k, q);
      }
    }
  }

  /** Reducing the diff of two mappings to `q` keeps only the part produced for
      the first segment of `q`. */
  lemma MapReduceToKey(a: Value, b: Value, q: FieldPath)
    requires a.Map? && b.Map? && a != b && q != []
    ensures ReduceIter(DiffIter(a, b, []), q) == ReduceIter(KeyChunk(a.entries, b.entries, q[0]), q)
  {
    var am, bm := a.entries, b.entries;
    var x, y, z := AddedItems(bm, bm.Keys - am.Keys, []),
      RemovedItems(am, am.Keys - bm.Keys, []), CommonItems(a, b, am.Keys * bm.Keys, []);
    assert DiffIter(a, b, []) == x + y + z;
    ReduceConcat(x + y, z, q);
    ReduceConcat(x, y, q);
    AddedReduce(am, bm, bm.Keys - am.Keys, q);
    RemovedReduce(am, bm, am.Keys - bm.Keys, q);
    CommonReduce(a, b, am.Keys * bm.Keys, q);
  }

  /** Reducing a built diff to a field is the same as diffing the two values
      found at that field: `Diff.build(a, b)[field] == diff(resolve(a, field),
      resolve(b, field))` in items. */
  lemma {:induction false} ReduceOfDiff(a: Value, b: Value, q: FieldPath)
    ensures ReduceIter(DiffIter(a, b, []), q) == DiffIter(Resolve(a, q), Resolve(b, q), [])
    decreases |q|
  {
    if q == [] {
      ReduceToRoot(DiffIter(a, b, []));
    } else if a == b {
    } else if a == Null || b == Null || TypeOf(a) != TypeOf(b) || !a.Map? {
      var it := DiffIter(a, b, [])[0];
      assert DiffIter(a, b, []) == [it];
      assert q[|it.field|..] == q;
      assert ReduceIter(DiffIter(a, b, []), q) == ReduceItem(it, q) + ReduceIter([], q);
    } else {
      var k, rest := q[0], q[1..];
      assert q == [k] + rest;
      var ca, cb := Get(a.entries, k), Get(b.entries, k);
      MapReduceToKey(a, b, q);
      DiffIterShift(ca, cb, [k]);
      ReducePrefixed(k, rest, DiffIter(ca, cb, []));
      ReduceOfDiff(ca, cb, rest);
      ResolveOfNull(rest);
      assert Resolve(a, q) == Resolve(ca, rest);
      assert Resolve(b, q) == Resolve(cb, rest);
    }
  }

  /** Reducing one item twice is reducing it once to the joined path. */
  lemma ReduceItemCompose(it: DiffItem, f1: FieldPath, f2: FieldPath)
    ensures ReduceIter(ReduceItem(it, f1), f2) == ReduceItem(it, f1 + f2)
  {
    if f1 == [] {
      assert f1 + f2 == f2;
      assert ReduceIter([it], f2) == ReduceItem(it, f2) + ReduceIter([], f2);
    } else if f2 == [] {
      assert f1 + f2 == f1;
      ReduceToRoot(ReduceItem(it, f1));
    } else if f1 <= it.field {
      ReduceItemComposeBelow(it, f1, f2);
    } else if it.field <= f1 {
      ReduceItemComposeAbove(it, f1, f2);
    }
  }

  /** The case of an item lying below the first path. */
  lemma ReduceItemComposeBelow(it: DiffItem, f1: FieldPath, f2: FieldPath)
    requires f1 != [] && f2 != [] && f1 <= it.field
    ensures ReduceIter(ReduceItem(it, f1), f2) == ReduceItem(it, f1 + f2)
  {
    var f := it.field;
    var g := f[|f1|..];
    var reduced := DiffItem(it.operation, g, it.oldValue, it.newValue);
    assert ReduceItem(it, f1) == [reduced];
    assert ReduceIter([reduced], f2) == ReduceItem(reduced, f2) + ReduceIter([], f2);
    assert f == f1 + g;
    assert f1 + f2 <= f <==> f2 <= g by {
      if f2 <= g { assert f1 + f2 == f[..|f1 + f2|]; }
      if f1 + f2 <= f { assert f2 == (f1 + f2)[|f1|..] == f[|f1|..|f1| + |f2|] == g[..|f2|]; }
    }
    assert f <= f1 + f2 <==> g <= f2 by {
      if g <= f2 { assert f == (f1 + f2)[..|f|]; }
      if f <= f1 + f2 { assert g == f[|f1|..] == (f1 + f2)[|f1|..|f|] == f2[..|g|]; }
    }
    if f2 <= g {
      assert f[|f1 + f2|..] == g[|f2|..];
    } else if g <= f2 {
      assert (f1 + f2)[|f|..] == f2[|g|..];
    }
  }

  /** The case of an item lying strictly above the first path. */
  lemma ReduceItemComposeAbove(it: DiffItem, f1: FieldPath, f2: FieldPath)
    requires f1 != [] && f2 != [] && !(f1 <= it.field) && it.field <= f1
    ensures ReduceIter(ReduceItem(it, f1), f2) == ReduceItem(it, f1 + f2)
  {
    var f := it.field;
    var t := f1[|f|..];
    ReduceOfDiff(Resolve(it.oldValue, t), Resolve(it.newValue, t), f2);
    ResolveAppend(it.oldValue, t, f2);
    ResolveAppend(it.newValue, t, f2);
    assert f <= f1 + f2 by { assert f == (f1 + f2)[..|f|]; }
    assert !(f1 + f2 <= f);
    assert (f1 + f2)[|f|..] == t + f2;
  }

  /** `d[f1][f2] == d[f1 + f2]` in items: reducing a diff to a field and
      then to a sub-field is reducing it to the joined field at once. */
  lemma {:induction false} ReduceCompose(items: seq<DiffItem>, f1: FieldPath, f2: FieldPath)
    ensures ReduceIter(ReduceIter(items, f1), f2) == ReduceIter(items, f1 + f2)
    decreases |items|
  {
    if items != [] {
      ReduceConcat(ReduceItem(items[0], f1), ReduceIter(items[1..], f1), f2);
      ReduceItemCompose(items[0], f1, f2);
      ReduceCompose(items[1..], f1, f2);
    }
  }

  /** The same for `Diff` values, path included. */
  lemma SelectCompose(d: Diff, f1: FieldPath, f2: FieldPath)
    ensures d.Select(f1).Select(f2) == d.Select(f1 + f2)
  {
    ReduceCompose(d.items, f1, f2);
    assert (d.path + f1) + f2 == d.path + (f1 + f2);
  }

  /** A diff built from two bodies and reduced to a field is the diff built
      from the two values at that field, except that it remembers the path. */
  lemma SelectOfBuild(a: Value, b: Value, field: FieldPath)
    ensures Build(a, b).Select(field).items == Build(Resolve(a, field), Resolve(b, field)).items
    ensures Build(a, b).Select(field).path == field
  {
    ReduceOfDiff(a, b, field);
  }

  /** Every item of a diff that was built and reduced to a field records a
      real change of that field's value. */
  lemma SelectSound(a: Value, b: Value, field: FieldPath)
    ensures forall it :: it in Build(a, b).Select(field).items ==>
      Sound(Resolve(a, field), Resolve(b, field), [], it)
  {
    ReduceOfDiff(a, b, field);
    DiffIterSound(Resolve(a, field), Resolve(b, field), []);
  }
}
