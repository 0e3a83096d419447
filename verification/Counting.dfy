/** Counting the elements of a sequence, and selecting one by its rank. */
module Counting {

  function Count<T>(s: seq<T>, p: T -> bool): nat {
    if s == [] then 0 else (if p(s[0]) then 1 else 0) + Count(s[1..], p)
  }

  /** Two properties that together hold more often than there are elements hold of one element together. */
  lemma {:induction false} Pigeonhole<T>(s: seq<T>, p: T -> bool, q: T -> bool) returns (i: nat)
    requires Count(s, p) + Count(s, q) > |s|
    ensures i < |s| && p(s[i]) && q(s[i])
  {
    if p(s[0]) && q(s[0]) {
      i := 0;
    } else {
      i := Pigeonhole(s[1..], p, q);
      i := i + 1;
    }
  }

  lemma {:induction false} CountSplits<T>(s: seq<T>, t: seq<T>, p: T -> bool)
    ensures Count(s + t, p) == Count(s, p) + Count(t, p)
  {
    if s == [] {
      assert s + t == t;
    } else {
      assert (s + t)[1..] == s[1..] + t;
      CountSplits(s[1..], t, p);
    }
  }

  lemma {:induction false} CountAll<T>(s: seq<T>, p: T -> bool)
    requires forall i :: 0 <= i < |s| ==> p(s[i])
    ensures Count(s, p) == |s|
  {
    if s == [] {
    } else {
      CountAll(s[1..], p);
    }
  }

  lemma {:induction false} CountNone<T>(s: seq<T>, p: T -> bool)
    requires forall i :: 0 <= i < |s| ==> !p(s[i])
    ensures Count(s, p) == 0
  {
    if s == [] {
    } else {
      CountNone(s[1..], p);
    }
  }

  lemma {:induction false} CountAtMostAll<T>(s: seq<T>, p: T -> bool)
    ensures Count(s, p) <= |s|
  {
    if s == [] {
    } else {
      CountAtMostAll(s[1..], p);
    }
  }

  /** A property that holds of a stretch holds at least as often as the stretch is long. */
  lemma {:induction false} CountStretch<T>(s: seq<T>, from: nat, to: nat, p: T -> bool)
    requires from <= to <= |s| && forall i :: from <= i < to ==> p(s[i])
    ensures Count(s, p) >= to - from
  {
    assert s == s[..from] + (s[from..to] + s[to..]);
    CountSplits(s[..from], s[from..to] + s[to..], p);
    CountSplits(s[from..to], s[to..], p);
    CountAll(s[from..to], p);
  }

  lemma {:induction false} CountSame<T>(s: seq<T>, p: T -> bool, q: T -> bool)
    requires forall i :: 0 <= i < |s| ==> p(s[i]) == q(s[i])
    ensures Count(s, p) == Count(s, q)
  {
    if s == [] {
    } else {
      CountSame(s[1..], p, q);
    }
  }

  lemma CountWithout<T>(t: seq<T>, i: nat, p: T -> bool)
    requires i < |t|
    ensures var rest := t[..i] + t[i + 1..];
            multiset(rest) == multiset(t) - multiset{t[i]} && Count(t, p) == Count(rest, p) + if p(t[i]) then 1 else 0
  {
    assert t == t[..i] + ([t[i]] + t[i + 1..]);
    CountSplits(t[..i], [t[i]] + t[i + 1..], p);
    CountSplits([t[i]], t[i + 1..], p);
    CountSplits(t[..i], t[i + 1..], p);
  }

  lemma {:induction false} CountPermutes<T>(s: seq<T>, t: seq<T>, p: T -> bool)
    requires multiset(s) == multiset(t)
    ensures Count(s, p) == Count(t, p)
  {
    if s == [] {
      assert |multiset(t)| == 0;
    } else {
      assert s[0] in multiset(t);
      var i :| 0 <= i < |t| && t[i] == s[0];
      CountWithout(s, 0, p);
      CountWithout(t, i, p);
      CountPermutes(s[..0] + s[1..], t[..i] + t[i + 1..], p);
    }
  }

  // ----- selection -----

  /** A strict order in which elements may tie, on the elements of a sequence. */
  ghost predicate IsWeakOrder<T(!new)>(s: multiset<T>, less: (T, T) -> bool) {
    && (forall a, b :: a in s && b in s && less(a, b) ==> !less(b, a))
    && (forall a, b, c :: a in s && b in s && c in s && !less(b, a) && !less(c, b) ==> !less(c, a))
  }

  /** What `nth_element` leaves: nothing before the n-th element is greater, and nothing after it is less. */
  ghost predicate IsNth<T>(s: seq<T>, n: nat, less: (T, T) -> bool)
    requires n < |s|
  {
    (forall i :: 0 <= i < n ==> !less(s[n], s[i])) && (forall i :: n < i < |s| ==> !less(s[i], s[n]))
  }

  lemma SwapPermutes<T>(s: seq<T>, i: nat, j: nat)
    requires i <= j < |s|
    ensures multiset(s[i := s[j]][j := s[i]]) == multiset(s)
  {
  }

  /** Puts the least of the rest first, until the n-th is in place. */
  method NthElement<T(!new)>(s: seq<T>, n: nat, less: (T, T) -> bool) returns (r: seq<T>)
    requires n < |s| && IsWeakOrder(multiset(s), less)
    ensures multiset(r) == multiset(s) && |r| == |s| && IsNth(r, n, less)
  {
    r := s;
    for k := 0 to n + 1
      invariant multiset(r) == multiset(s) && |r| == |s|
      invariant forall i, j :: 0 <= i < k && i < j < |r| ==> !less(r[j], r[i])
    {
      r := LeastFirst(r, k, less);
    }
  }

  method IndexOfLeast<T(!new)>(s: seq<T>, from: nat, less: (T, T) -> bool) returns (least: nat)
    requires from < |s| && IsWeakOrder(multiset(s), less)
    ensures from <= least < |s|
    ensures forall j :: from <= j < |s| ==> !less(s[j], s[least])
  {
    least := from;
    assert forall i :: 0 <= i < |s| ==> s[i] in multiset(s);
    for j := from to |s|
      invariant from <= least < |s|
      invariant forall i :: from <= i < j ==> !less(s[i], s[least])
    {
      if less(s[j], s[least]) {
        least := j;
      }
    }
  }

  /** Sorts by putting the least of the rest first. */
  method Sort<T(!new)>(s: seq<T>, less: (T, T) -> bool) returns (r: seq<T>)
    requires IsWeakOrder(multiset(s), less)
    ensures multiset(r) == multiset(s) && |r| == |s|
    ensures forall i, j :: 0 <= i < j < |r| ==> !less(r[j], r[i])
  {
    r := s;
    for k := 0 to |s|
      invariant multiset(r) == multiset(s) && |r| == |s|
      invariant forall i, j :: 0 <= i < k && i < j < |r| ==> !less(r[j], r[i])
    {
      r := LeastFirst(r, k, less);
    }
  }

  /** Swaps the least of the elements from a position on into that position. */
  method LeastFirst<T(!new)>(s: seq<T>, k: nat, less: (T, T) -> bool) returns (r: seq<T>)
    requires k < |s| && IsWeakOrder(multiset(s), less)
    requires forall i, j :: 0 <= i < k && i < j < |s| ==> !less(s[j], s[i])
    ensures multiset(r) == multiset(s) && |r| == |s|
    ensures forall i, j :: 0 <= i <= k && i < j < |r| ==> !less(r[j], r[i])
  {
    var least := IndexOfLeast(s, k, less);
    SwapPermutes(s, k, least);
    r := s[k := s[least]][least := s[k]];
    assert forall i :: k <= i < |r| ==> exists j :: k <= j < |r| && r[i] == s[j];
  }
}
