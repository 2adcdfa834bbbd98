/** Sums over the values of a finite map, independent of any iteration order. */
module MapSum {

  ghost function Sum<K>(m: map<K, int>): int
    decreases |m|
  {
    if m == map[] then 0
    else
      var k :| k in m;
      m[k] + Sum(m - {k})
  }

  function Get<K>(m: map<K, int>, k: K): int {
    if k in m then m[k] else 0
  }

  /** Any key may be taken out first. */
  lemma {:induction false} SumRemove<K>(m: map<K, int>, k: K)
    requires k in m
    ensures Sum(m) == m[k] + Sum(m - {k})
    decreases |m|
  {
    var k0 :| k0 in m && Sum(m) == m[k0] + Sum(m - {k0});
    if k0 != k {
      SumRemove(m - {k0}, k);
      SumRemove(m - {k}, k0);
      assert (m - {k0}) - {k} == (m - {k}) - {k0};
    }
  }

  lemma SumUpdate<K>(m: map<K, int>, k: K, v: int)
    ensures Sum(m[k := v]) == Sum(m) - Get(m, k) + v
  {
    SumRemove(m[k := v], k);
    assert m[k := v] - {k} == m - {k};
    if k in m {
      SumRemove(m, k);
    } else {
      assert m - {k} == m;
    }
  }

  lemma SumDrop<K>(m: map<K, int>, k: K)
    ensures Sum(m - {k}) == Sum(m) - Get(m, k)
  {
    if k in m {
      SumRemove(m, k);
    } else {
      assert m - {k} == m;
    }
  }

  lemma {:induction false} SumNonNegative<K>(m: map<K, int>)
    requires forall j :: j in m ==> m[j] >= 0
    ensures Sum(m) >= 0
    decreases |m|
  {
    if m != map[] {
      var j :| j in m;
      SumRemove(m, j);
      SumNonNegative(m - {j});
    }
  }

  /** A sum of non-negative values bounds each of them. */
  lemma SumBounds<K>(m: map<K, int>, k: K)
    requires forall j :: j in m ==> m[j] >= 0
    ensures Sum(m) >= Get(m, k) >= 0
  {
    SumNonNegative(m);
    if k in m {
      SumRemove(m, k);
      SumNonNegative(m - {k});
    }
  }

  /** A pointwise comparison carries over to the sums. */
  lemma {:induction false} SumMonotone<K>(a: map<K, int>, b: map<K, int>)
    requires a.Keys == b.Keys
    requires forall k :: k in a ==> a[k] <= b[k]
    ensures Sum(a) <= Sum(b)
    ensures Sum(a) == Sum(b) ==> a == b
    decreases |a|
  {
    if a == map[] {
      assert b == map[];
    } else {
      var k :| k in a;
      SumRemove(a, k);
      SumRemove(b, k);
      SumMonotone(a - {k}, b - {k});
      if Sum(a) == Sum(b) {
        assert a == (a - {k})[k := a[k]];
        assert b == (b - {k})[k := b[k]];
      }
    }
  }
}
