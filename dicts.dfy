/** The JSON-like values that kopf handles as resource bodies, patches and
    diff values (the Python objects parsed from the cluster's JSON), and the
    nested-mapping helpers the modelled code relies on. */
module Dicts {

  /** `None`, `bool`, `int`, `str`, `list` and `dict` (with string keys). */
  datatype Value =
    | Null
    | Bool(b: bool)
    | Int(i: int)
    | Str(s: string)
    | List(items: seq<Value>)
    | Map(entries: map<string, Value>)

  /** A field path such as `('spec', 'struct', 'field')`: one string per segment. */
  type FieldPath = seq<string>

  /** `m.get(k)`: the stored value, or `None` for a missing key. */
  function Get(m: map<string, Value>, k: string): (r: Value)
    ensures k !in m ==> r == Null
  {
    if k in m then m[k] else Null
  }

  /** `m.get(k, {})` where the stored value is a mapping. A stored value of
      another kind is read as the empty mapping. */
  function Child(m: map<string, Value>, k: string): (r: map<string, Value>)
    ensures k !in m ==> r == map[]
  {
    if k in m && m[k].Map? then m[k].entries else map[]
  }

  /** Python's truth value of an object. */
  predicate Truthy(v: Value)
  {
    match v
    case Null => false
    case Bool(b) => b
    case Int(i) => i != 0
    case Str(s) => s != ""
    case List(xs) => xs != []
    case Map(m) => m != map[]
  }

  /** `resolve(v, path, default=None, assume_empty=True)`: a nested-mapping
      lookup where a missing key, or a value that is not a mapping on the way,
      reads as `None`. */
  function Resolve(v: Value, path: FieldPath): Value
    decreases |path|
  {
    if path == [] then v
    else if v.Map? && path[0] in v.entries then Resolve(v.entries[path[0]], path[1..])
    else Null
  }

  /** Looking up `p + q` is looking up `p`, then `q` in what was found. */
  lemma {:induction false} ResolveAppend(v: Value, p: FieldPath, q: FieldPath)
    ensures Resolve(v, p + q) == Resolve(Resolve(v, p), q)
    decreases |p|
  {
    if p == [] {
      assert p + q == q;
    } else {
      assert (p + q)[0] == p[0];
      assert (p + q)[1..] == p[1..] + q;
      if v.Map? && p[0] in v.entries {
        ResolveAppend(v.entries[p[0]], p[1..], q);
      } else {
        ResolveOfNull(q);
      }
    }
  }

  /** Nothing can be found below `None`. */
  lemma {:induction false} ResolveOfNull(q: FieldPath)
    ensures Resolve(Null, q) == Null
  {
  }
}
