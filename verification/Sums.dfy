/** Sums over the entries of a map, and how one put or removal changes them. */
module Sums {
  ghost function SumBy<K(!new), V(!new)>(m: map<K, V>, f: (K, V) -> int): int {
    if m == map[] then 0
    else
      var k :| k in m;
      f(k, m[k]) + SumBy(m - {k}, f)
  }

  lemma {:induction false} SumWithout<K(!new), V(!new)>(m: map<K, V>, f: (K, V) -> int, k: K)
    requires k in m
    ensures SumBy(m, f) == f(k, m[k]) + SumBy(m - {k}, f)
  {
    var j :| j in m && SumBy(m, f) == f(j, m[j]) + SumBy(m - {j}, f);
    if j != k {
      SumWithout(m - {j}, f, k);
      SumWithout(m - {k}, f, j);
      assert m - {j} - {k} == m - {k} - {j};
    }
  }

  lemma SumPut<K(!new), V(!new)>(m: map<K, V>, f: (K, V) -> int, k: K, v: V)
    ensures SumBy(m[k := v], f) == SumBy(m, f) - (if k in m then f(k, m[k]) else 0) + f(k, v)
  {
    var m' := m[k := v];
    SumWithout(m', f, k);
    assert m' - {k} == m - {k};
    if k in m {
      SumWithout(m, f, k);
    } else {
      assert m - {k} == m;
    }
  }

  /** A sum of terms that are never negative is at least each of them. */
  lemma {:induction false} SumNonNegative<K(!new), V(!new)>(m: map<K, V>, f: (K, V) -> int)
    requires forall k :: k in m ==> f(k, m[k]) >= 0
    ensures SumBy(m, f) >= 0
    ensures forall k :: k in m ==> f(k, m[k]) <= SumBy(m, f)
  {
    if m != map[] {
      var j :| j in m;
      SumNonNegative(m - {j}, f);
      SumWithout(m, f, j);
      forall k | k in m
        ensures f(k, m[k]) <= SumBy(m, f)
      {
        if k != j {
          assert (m - {j})[k] == m[k];
        }
      }
    }
  }

  lemma {:induction false} SumZero<K(!new), V(!new)>(m: map<K, V>, f: (K, V) -> int)
    requires forall k :: k in m ==> f(k, m[k]) == 0
    ensures SumBy(m, f) == 0
  {
    if m != map[] {
      var j :| j in m;
      SumZero(m - {j}, f);
      SumWithout(m, f, j);
    }
  }
}
