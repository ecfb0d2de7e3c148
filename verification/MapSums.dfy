/**
 * Sums of a quantity over the values of a map. Hash maps are iterated in no particular order, so
 * the sum is defined by picking keys one by one and `SumRemove` shows that the choice is immaterial.
 */
module MapSums {

  ghost function Pick<K, V>(m: map<K, V>): (k: K)
    requires m != map[]
    ensures k in m
  {
    var k :| k in m;
    k
  }

  ghost function SumBy<K, V>(m: map<K, V>, f: V -> nat): nat
    decreases |m|
  {
    if m == map[] then 0 else f(m[Pick(m)]) + SumBy(m - {Pick(m)}, f)
  }

  lemma {:induction false} SumRemove<K, V>(m: map<K, V>, f: V -> nat, k: K)
    requires k in m
    ensures SumBy(m, f) == f(m[k]) + SumBy(m - {k}, f)
    decreases |m|
  {
    var p := Pick(m);
    if p != k {
      SumRemove(m - {p}, f, k);
      SumRemove(m - {k}, f, p);
      assert m - {p} - {k} == m - {k} - {p};
    }
  }

  /** Changing or adding one entry changes the sum by that entry alone. */
  lemma {:induction false} SumUpdate<K, V>(m: map<K, V>, f: V -> nat, k: K, v: V)
    ensures SumBy(m[k := v], f) + (if k in m then f(m[k]) else 0) == SumBy(m, f) + f(v)
  {
    SumRemove(m[k := v], f, k);
    if k in m {
      SumRemove(m, f, k);
      assert m[k := v] - {k} == m - {k};
    } else {
      assert m[k := v] - {k} == m;
    }
  }

  lemma {:induction false} EntryBelowSum<K, V>(m: map<K, V>, f: V -> nat, k: K)
    requires k in m
    ensures f(m[k]) <= SumBy(m, f)
  {
    SumRemove(m, f, k);
  }
}
