/** The first element of a finite set under a strict total order. */
module Minimum {

  ghost predicate IsOrder<T(!new)>(ids: set<T>, before: (T, T) -> bool) {
    && (forall a, b :: a in ids && b in ids && a != b ==> (before(a, b) <==> !before(b, a)))
    && (forall a, b, c :: a in ids && b in ids && c in ids && before(a, b) && before(b, c) ==> before(a, c))
  }

  ghost predicate IsMinimum<T(!new)>(ids: set<T>, before: (T, T) -> bool, first: T) {
    first in ids && forall i :: i in ids && i != first ==> before(first, i)
  }

  lemma {:induction false} MinimumExists<T(!new)>(ids: set<T>, before: (T, T) -> bool) returns (first: T)
    requires IsOrder(ids, before) && ids != {}
    ensures IsMinimum(ids, before, first)
    decreases ids
  {
    var x :| x in ids;
    first := x;
    if ids == {x} {
    } else {
      var rest := MinimumExists(ids - {x}, before);
      if before(rest, x) {
        first := rest;
      }
    }
  }
}
