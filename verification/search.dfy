/** The first-match scan shared by the logo lookup and the site dispatch. */
module Search {
  import opened Wrappers

  /** The index of the first element at or after `from` that satisfies `p`, or None when none does. */
  function FirstIndex<T>(xs: seq<T>, p: T -> bool, from: nat): (r: Option<nat>)
    requires from <= |xs|
    ensures r.Some? ==> from <= r.value < |xs| && p(xs[r.value])
    ensures r.Some? ==> forall j | from <= j < r.value :: !p(xs[j])
    ensures r.None? ==> forall j | from <= j < |xs| :: !p(xs[j])
    decreases |xs| - from
  {
    if from == |xs| then None
    else if p(xs[from]) then Some(from)
    else FirstIndex(xs, p, from + 1)
  }
}
