/** The "search before create" locator shared by every resource: list the
    collection, scan it in order, and report the id of the first record that
    matches the identity key. */
module Locator {
  import opened Base
  import opened Rest

  /** Index of the first element of `xs` satisfying `p`, if any. */
  function FirstMatch<T>(xs: seq<T>, p: T -> bool): (k: Option<nat>)
    ensures k.Some? ==> k.value < |xs| && p(xs[k.value])
    ensures k.Some? ==> forall j :: 0 <= j < k.value ==> !p(xs[j])
    ensures k.None? <==> forall j :: 0 <= j < |xs| ==> !p(xs[j])
  {
    if |xs| == 0 then None
    else if p(xs[0]) then Some(0)
    else
      match FirstMatch(xs[1..], p)
      case None => None
      case Some(k) => Some(k + 1)
  }

  /** `id` is the id of the first record of `xs` satisfying `p`. */
  ghost predicate FirstMatchHas<R>(xs: seq<R>, p: R -> bool, idOf: R -> string, id: string)
  {
    exists i :: 0 <= i < |xs| && p(xs[i]) && idOf(xs[i]) == id && forall j :: 0 <= j < i ==> !p(xs[j])
  }

  /** The outcome of a search: transport errors and non-200 statuses are
      errors, distinct from "not found"; otherwise the first match wins. */
  function Locate<R>(rsp: Response<R>, p: R -> bool, idOf: R -> string): (r: Result<Option<string>>)
    ensures r.Ok? <==> ReadList(rsp).Ok?
    ensures r.Err? ==> r.error == ReadList(rsp).error
    ensures r.Ok? && r.value.None? <==> ReadList(rsp).Ok? && forall j :: 0 <= j < |rsp.body.records| ==> !p(rsp.body.records[j])
    ensures r.Ok? && r.value.Some? ==> FirstMatchHas(rsp.body.records, p, idOf, r.value.value)
  {
    match ReadList(rsp)
    case Err(e) => Err(e)
    case Ok(xs) =>
      match FirstMatch(xs, p)
      case None => Ok(None)
      case Some(k) => Ok(Some(idOf(xs[k])))
  }

  /** A search has one answer: two ids both reported as the first match
      are equal. */
  lemma FirstMatchUnique<R>(xs: seq<R>, p: R -> bool, idOf: R -> string, a: string, b: string)
    requires FirstMatchHas(xs, p, idOf, a) && FirstMatchHas(xs, p, idOf, b)
    ensures a == b
  {
    var i :| 0 <= i < |xs| && p(xs[i]) && idOf(xs[i]) == a && forall j :: 0 <= j < i ==> !p(xs[j]);
    var i' :| 0 <= i' < |xs| && p(xs[i']) && idOf(xs[i']) == b && forall j :: 0 <= j < i' ==> !p(xs[j]);
  }
}
