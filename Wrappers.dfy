/** Optional values: a row a query may not find, a field the store allows to be NULL. */
module Wrappers {

  datatype Option<+T> = None | Some(value: T)

  /** The position of the first element of `xs` that satisfies `p`, the way
      a `SELECT ... LIMIT 1` returns the first matching row in table order. */
  function FirstIndex<T>(xs: seq<T>, p: T -> bool): (r: Option<nat>)
    ensures r.Some? ==> r.value < |xs| && p(xs[r.value])
    ensures r.Some? ==> forall j :: 0 <= j < r.value ==> !p(xs[j])
    ensures r.None? ==> forall j :: 0 <= j < |xs| ==> !p(xs[j])
    decreases |xs|
  {
    if xs == [] then None
    else if p(xs[0]) then Some(0)
    else
      match FirstIndex(xs[1..], p)
      case None => None
      case Some(i) => Some(i + 1)
  }
}
