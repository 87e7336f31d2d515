/** Small notions several modules use. */
module Basics {

  datatype Option<T> = None | Some(value: T)

  ghost predicate Distinct<T>(xs: seq<T>) {
    forall i, j :: 0 <= i < j < |xs| ==> xs[i] != xs[j]
  }

  /** A sequence without repetition is no longer than a set that holds its elements. */
  lemma {:induction false} DistinctLength<T>(xs: seq<T>, ys: set<T>)
    requires Distinct(xs) && forall i :: 0 <= i < |xs| ==> xs[i] in ys
    ensures |xs| <= |ys|
  {
    if xs != [] {
      var l := |xs| - 1;
      DistinctLength(xs[..l], ys - {xs[l]});
    }
  }
}
