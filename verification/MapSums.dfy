/** Sums over the rows of a table. */
module MapSums {
  import opened Sums

  function Put<K, V>(m: map<K, V>, k: K, v: V, keep: bool): map<K, V> {
    if keep then m[k := v] else m - {k}
  }

  function At<K, V>(m: map<K, V>, g: (K, V) -> int): K -> int {
    k => if k in m then g(k, m[k]) else 0
  }

  ghost function MapSum<K, V>(m: map<K, V>, g: (K, V) -> int): int {
    Sum(m.Keys, At(m, g))
  }

  lemma {:induction false} MapSumOut<K, V>(m: map<K, V>, k: K, g: (K, V) -> int)
    ensures MapSum(m - {k}, g) == MapSum(m, g) - At(m, g)(k)
  {
    var m' := m - {k};
    assert m'.Keys == m.Keys - {k};
    SumSame(m'.Keys, At(m, g), At(m', g));
    if k in m {
      SumTake(m.Keys, At(m, g), k);
    } else {
      assert m'.Keys == m.Keys;
    }
  }

  // A row written over, added, or taken out when it is of no weight.
  lemma {:induction false} MapSumPut<K, V>(m: map<K, V>, k: K, v: V, keep: bool, g: (K, V) -> int)
    requires keep || g(k, v) == 0
    ensures MapSum(Put(m, k, v, keep), g) == MapSum(m, g) - At(m, g)(k) + g(k, v)
  {
    MapSumOut(m, k, g);
    if keep {
      var m' := m[k := v];
      MapSumOut(m', k, g);
      assert m' - {k} == m - {k};
    }
  }

  lemma {:induction false} MapSumNonNegative<K, V>(m: map<K, V>, g: (K, V) -> int)
    requires forall k :: k in m ==> g(k, m[k]) >= 0
    ensures MapSum(m, g) >= 0
  {
    SumNonNegative(m.Keys, At(m, g));
  }

  // No row outweighs all rows.
  lemma {:induction false} MapSumCovers<K, V>(m: map<K, V>, k: K, g: (K, V) -> int)
    requires forall j :: j in m ==> g(j, m[j]) >= 0
    ensures MapSum(m, g) >= At(m, g)(k)
  {
    MapSumOut(m, k, g);
    MapSumNonNegative(m - {k}, g);
  }
}
