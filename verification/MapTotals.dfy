/** Sums of the values of a map. */
module MapTotals {
  function Get<K>(m: map<K, int>, k: K): int { if k in m then m[k] else 0 }

  ghost function Total<K(!new)>(m: map<K, int>): int {
    if exists k :: k in m then var k :| k in m; m[k] + Total(m - {k}) else 0
  }

  lemma {:induction false} TotalWithout<K(!new)>(m: map<K, int>, k: K)
    requires k in m
    ensures Total(m) == m[k] + Total(m - {k})
    decreases m
  {
    var h :| h in m && Total(m) == m[h] + Total(m - {h});
    if h != k {
      TotalWithout(m - {h}, k);
      TotalWithout(m - {k}, h);
      assert (m - {h}) - {k} == (m - {k}) - {h};
    }
  }

  lemma {:induction false} TotalUpdate<K(!new)>(m: map<K, int>, k: K, v: int)
    ensures Total(m[k := v]) == Total(m) - Get(m, k) + v
  {
    var m' := m[k := v];
    TotalWithout(m', k);
    if k in m {
      TotalWithout(m, k);
      assert m' - {k} == m - {k};
    } else {
      assert m' - {k} == m;
    }
  }

  lemma {:induction false} TotalZero<K(!new)>(m: map<K, int>)
    requires forall k :: Get(m, k) == 0
    ensures Total(m) == 0
    decreases m
  {
    if exists k :: k in m {
      var h :| h in m && Total(m) == m[h] + Total(m - {h});
      assert Get(m, h) == 0;
      forall k ensures Get(m - {h}, k) == 0 {
        assert Get(m, k) == 0;
      }
      TotalZero(m - {h});
    }
  }

  lemma {:induction false} TotalNonNegative<K(!new)>(m: map<K, int>)
    requires forall k :: k in m ==> m[k] >= 0
    ensures Total(m) >= 0
    decreases m
  {
    if exists k :: k in m {
      var h :| h in m && Total(m) == m[h] + Total(m - {h});
      TotalNonNegative(m - {h});
    }
  }

  lemma {:induction false} PartOfTotal<K(!new)>(m: map<K, int>, k: K)
    requires forall h :: h in m ==> m[h] >= 0
    ensures 0 <= Get(m, k) <= Total(m)
  {
    TotalNonNegative(m);
    if k in m {
      TotalWithout(m, k);
      TotalNonNegative(m - {k});
    }
  }
}
