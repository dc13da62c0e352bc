/** Handler ids (`generate_id` and `get_callable_id` in
    kopf/reactor/registries.py). */
module HandlerIds {
  import opened Wrappers
  import opened Numerals

  /** The shapes of callable that `get_callable_id` tells apart:
      `functools.partial` objects, objects with `__wrapped__` (made by
      `functools.wraps`), lambdas, plain functions and methods, and
      anything else. */
  datatype Callable =
    | Partial(func: Callable)
    | Wrapped(wrapped: Callable)
    | Lambda(path: string, line: nat)
    | Function(qualname: string)
    | NotAFunction(repr: string)

  datatype IdError = NoCallable | Unidentifiable(repr: string)

  /** `get_callable_id(c)` for a callable that is not `None`. */
  function CallableId(c: Callable): Result<string, IdError>
  {
    match c
    case Partial(f) => CallableId(f)
    case Wrapped(w) => CallableId(w)
    case Lambda(path, line) => Success("lambda:" + path + ":" + NatToString(line))
    case Function(qualname) => Success(qualname)
    case NotAFunction(repr) => Failure(Unidentifiable(repr))
  }

  /** `get_callable_id(c)`: `None` cannot be identified. */
  function GetCallableId(c: Option<Callable>): (r: Result<string, IdError>)
    ensures c.None? ==> r == Failure(NoCallable)
  {
    if c.None? then Failure(NoCallable) else CallableId(c.value)
  }

  /** The callable left after unwrapping every partial and wrapper. */
  function Innermost(c: Callable): (r: Callable)
    ensures !r.Partial? && !r.Wrapped?
  {
    match c
    case Partial(f) => Innermost(f)
    case Wrapped(w) => Innermost(w)
    case _ => c
  }

  /** Partials and wrappers are unwrapped all the way down: a lambda is
      identified by its file and first line, a function by its qualified
      name, and anything else fails. */
  lemma {:induction false} CallableIdOfInnermost(c: Callable)
    ensures Innermost(c).Lambda? ==>
      CallableId(c) == Success("lambda:" + Innermost(c).path + ":" + NatToString(Innermost(c).line))
    ensures Innermost(c).Function? ==> CallableId(c) == Success(Innermost(c).qualname)
    ensures Innermost(c).NotAFunction? ==> CallableId(c) == Failure(Unidentifiable(Innermost(c).repr))
  {
    match c
    case Partial(f) => CallableIdOfInnermost(f);
    case Wrapped(w) => CallableIdOfInnermost(w);
    case _ =>
  }

  /** A string is truthy when it is given and not empty. */
  predicate Given(s: Option<string>)
  {
    s.Some? && s.value != ""
  }

  /** `generate_id(fn, id, prefix, suffix)`: the explicit id, or the
      callable's id, then `/suffix` and `prefix/` where they are truthy. */
  function GenerateId(fn: Option<Callable>, id: Option<string>, prefix: Option<string>, suffix: Option<string>): Result<string, IdError>
  {
    var base := if id.Some? then Success(id.value) else GetCallableId(fn);
    match base
    case Failure(e) => Failure(e)
    case Success(realId) => Success(Surround(realId, prefix, suffix))
  }

  /** `real_id if not suffix else f'{real_id}/{suffix}'`, then the same for
      the prefix. */
  function Surround(realId: string, prefix: Option<string>, suffix: Option<string>): string
  {
    var withSuffix := if Given(suffix) then realId + "/" + suffix.value else realId;
    if Given(prefix) then prefix.value + "/" + withSuffix else withSuffix
  }

  /** The segments that surround the base id. */
  function Head(prefix: Option<string>): string
  {
    if Given(prefix) then prefix.value + "/" else ""
  }

  function Tail(suffix: Option<string>): string
  {
    if Given(suffix) then "/" + suffix.value else ""
  }

  /** The id is `prefix/base/suffix` with missing or empty segments left out,
      where the base is an explicit id whenever one is given, and fails only
      when there is no explicit id and the callable cannot be identified. */
  lemma GenerateIdShape(fn: Option<Callable>, id: Option<string>, prefix: Option<string>, suffix: Option<string>)
    ensures id.Some? ==> GenerateId(fn, id, prefix, suffix) == Success(Head(prefix) + id.value + Tail(suffix))
    ensures id.None? && GetCallableId(fn).Success? ==>
      GenerateId(fn, id, prefix, suffix) == Success(Head(prefix) + GetCallableId(fn).value + Tail(suffix))
    ensures id.None? && GetCallableId(fn).Failure? ==>
      GenerateId(fn, id, prefix, suffix) == Failure(GetCallableId(fn).error)
  {
    if id.Some? {
      SurroundShape(id.value, prefix, suffix);
    } else if GetCallableId(fn).Success? {
      SurroundShape(GetCallableId(fn).value, prefix, suffix);
    }
  }

  lemma SurroundShape(b: string, prefix: Option<string>, suffix: Option<string>)
    ensures Surround(b, prefix, suffix) == Head(prefix) + b + Tail(suffix)
  {
    if Given(prefix) && Given(suffix) {
      assert prefix.value + "/" + (b + "/" + suffix.value) == (prefix.value + "/") + b + ("/" + suffix.value);
    } else if Given(suffix) {
      assert b + "/" + suffix.value == "" + b + ("/" + suffix.value);
    } else if Given(prefix) {
      assert prefix.value + "/" + b == (prefix.value + "/") + b + "";
    } else {
      assert b == "" + b + "";
    }
  }

  /** A sub-handler's id, made with its parent's id as the prefix, starts
      with the parent's id and a slash. */
  lemma SubHandlerIdHasParentPrefix(fn: Option<Callable>, id: Option<string>, parent: string, suffix: Option<string>)
    requires parent != ""
    requires GenerateId(fn, id, Some(parent), suffix).Success?
    ensures parent + "/" <= GenerateId(fn, id, Some(parent), suffix).value
  {
    GenerateIdShape(fn, id, Some(parent), suffix);
    var r := GenerateId(fn, id, Some(parent), suffix).value;
    var rest := r[|parent| + 1..];
    assert r == (parent + "/") + rest;
  }
}
