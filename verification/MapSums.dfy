/** Sums over the values of a finite map: Python's `sum(counts.values())`. */
module MapSums {

  ghost function Total<K>(m: map<K, int>): int
    decreases |m|
  {
    if m == map[] then 0
    else
      var k :| k in m;
      Smaller(m, k);
      m[k] + Total(m - {k})
  }

  lemma Smaller<K>(m: map<K, int>, k: K)
    requires k in m
    ensures |m - {k}| < |m|
  {
    assert (m - {k}).Keys == m.Keys - {k};
    assert |(m - {k}).Keys| == |m - {k}|;
  }

  /** The sum does not depend on the order the keys are visited in. */
  lemma {:induction false} TotalWithout<K>(m: map<K, int>, k: K)
    requires k in m
    ensures Total(m) == m[k] + Total(m - {k})
    decreases |m|
  {
    var first :| first in m && Total(m) == m[first] + Total(m - {first});
    if first != k {
      Smaller(m, first);
      Smaller(m, k);
      TotalWithout(m - {first}, k);
      TotalWithout(m - {k}, first);
      assert m - {first} - {k} == m - {k} - {first};
    }
  }

  /** Value at a key, zero when absent: `Counter` lookup. */
  function Get<K>(m: map<K, int>, k: K): int {
    if k in m then m[k] else 0
  }

  lemma TotalUpdate<K>(m: map<K, int>, k: K, v: int)
    ensures Total(m[k := v]) == Total(m) - Get(m, k) + v
  {
    TotalWithout(m[k := v], k);
    assert m[k := v] - {k} == m - {k};
    if k in m {
      TotalWithout(m, k);
    } else {
      assert m - {k} == m;
    }
  }

  /** If every value of a is at most that of b, so is the sum; the sums agree only when all values do. */
  lemma {:induction false} TotalMonotone<K>(a: map<K, int>, b: map<K, int>)
    requires a.Keys == b.Keys && forall k :: k in a ==> a[k] <= b[k]
    ensures Total(a) <= Total(b)
    ensures Total(a) == Total(b) <==> a == b
    decreases |a|
  {
    if a == map[] {
      assert b == map[];
    } else {
      var k :| k in a;
      TotalWithout(a, k);
      TotalWithout(b, k);
      Smaller(a, k);
      assert (a - {k}).Keys == (b - {k}).Keys;
      TotalMonotone(a - {k}, b - {k});
      if Total(a) == Total(b) {
        assert a - {k} == b - {k};
        forall x | x in a ensures a[x] == b[x] {
          if x != k { assert a[x] == (a - {k})[x] && b[x] == (b - {k})[x]; }
        }
        assert a == b;
      }
    }
  }

  /** A sum over a map with one entry, or of non-negative values against one of them. */
  lemma OneOfTotal<K>(m: map<K, int>, k: K)
    requires k in m && forall x :: x in m ==> m[x] >= 0
    ensures m[k] <= Total(m)
    ensures m.Keys == {k} ==> Total(m) == m[k]
  {
    TotalWithout(m, k);
    NonNegative(m - {k});
    if m.Keys == {k} { assert m - {k} == map[]; }
  }

  lemma {:induction false} NonNegative<K>(m: map<K, int>)
    requires forall x :: x in m ==> m[x] >= 0
    ensures Total(m) >= 0
    decreases |m|
  {
    if m != map[] {
      var k :| k in m;
      TotalWithout(m, k);
      Smaller(m, k);
      NonNegative(m - {k});
    }
  }

  /** The loop behind `sum(...)`. */
  method SumUp<K(==)>(m: map<K, int>) returns (total: int)
    ensures total == Total(m)
  {
    total := 0;
    var rest := m;
    while rest.Keys != {}
      invariant total + Total(rest) == Total(m)
      decreases |rest|
    {
      var k :| k in rest.Keys;
      TotalWithout(rest, k);
      Smaller(rest, k);
      total := total + rest[k];
      rest := rest - {k};
    }
    assert rest == map[];
  }
}
