/** Sums over maps, and how one update changes them. */
module Sums {

  ghost function Sum<K(!new), V(!new)>(m: map<K, V>, f: (K, V) -> int): int
    decreases |m|
  {
    if m == map[] then 0
    else
      var k :| k in m;
      f(k, m[k]) + Sum(m - {k}, f)
  }

  lemma {:induction false} SumWithout<K(!new), V(!new)>(m: map<K, V>, f: (K, V) -> int, k: K)
    requires k in m
    ensures Sum(m, f) == f(k, m[k]) + Sum(m - {k}, f)
    decreases |m|
  {
    var k0 :| k0 in m && Sum(m, f) == f(k0, m[k0]) + Sum(m - {k0}, f);
    if k0 == k {
    } else {
      SumWithout(m - {k0}, f, k);
      SumWithout(m - {k}, f, k0);
      assert m - {k0} - {k} == m - {k} - {k0};
    }
  }

  function At<K, V>(m: map<K, V>, f: (K, V) -> int, k: K): int {
    if k in m then f(k, m[k]) else 0
  }

  lemma PutThenDrop<K, V>(m: map<K, V>, k: K, v: V)
    ensures m[k := v] - {k} == m - {k}
  {
  }

  lemma SumPut<K(!new), V(!new)>(m: map<K, V>, f: (K, V) -> int, k: K, v: V)
    ensures Sum(m[k := v], f) == Sum(m, f) - At(m, f, k) + f(k, v)
  {
    var m' := m[k := v];
    SumWithout(m', f, k);
    assert m' - {k} == m - {k};
    if k in m {
      SumWithout(m, f, k);
    } else {
      assert m - {k} == m;
    }
  }

  lemma {:induction false} SumDrop<K(!new), V(!new)>(m: map<K, V>, f: (K, V) -> int, k: K)
    ensures Sum(m - {k}, f) == Sum(m, f) - At(m, f, k)
  {
    if k in m {
      SumWithout(m, f, k);
    } else {
      assert m - {k} == m;
    }
  }

  lemma {:induction false} SumZero<K(!new), V(!new)>(m: map<K, V>, f: (K, V) -> int)
    requires forall k <- m :: f(k, m[k]) == 0
    ensures Sum(m, f) == 0
    decreases |m|
  {
    if m == map[] {
    } else {
      var k :| k in m;
      SumWithout(m, f, k);
      SumZero(m - {k}, f);
    }
  }

  /** A sum to which one key alone adds anything. */
  lemma {:induction false} SumSingle<K(!new), V(!new)>(m: map<K, V>, f: (K, V) -> int, k: K)
    requires forall i <- m :: i != k ==> f(i, m[i]) == 0
    ensures Sum(m, f) == At(m, f, k)
  {
    if k in m {
      SumWithout(m, f, k);
      SumZero(m - {k}, f);
    } else {
      SumZero(m, f);
    }
  }

  /** A sum of amounts none of which is negative is at least any one of them. */
  lemma {:induction false} SumAtLeast<K(!new), V(!new)>(m: map<K, V>, f: (K, V) -> int)
    requires forall k <- m :: f(k, m[k]) >= 0
    ensures Sum(m, f) >= 0
    ensures forall k <- m :: f(k, m[k]) <= Sum(m, f)
    decreases |m|
  {
    forall k <- m
      ensures 0 <= f(k, m[k]) <= Sum(m, f)
    {
      SumWithout(m, f, k);
      SumAtLeast(m - {k}, f);
    }
  }
}
