/** Sums over finite tables, independent of the order in which rows are visited. */
module Totals {

  ghost function Total<K>(m: map<K, real>): real
    decreases |m|
  {
    if m == map[] then 0.0
    else
      var k :| k in m;
      assert (m - {k}).Keys == m.Keys - {k};
      m[k] + Total(m - {k})
  }

  /** Any row may be taken out first. */
  lemma {:induction false} TotalStep<K>(m: map<K, real>, k: K)
    requires k in m
    ensures Total(m) == m[k] + Total(m - {k})
    decreases |m|
  {
    var j :| j in m && Total(m) == m[j] + Total(m - {j});
    if j != k {
      assert (m - {j}).Keys == m.Keys - {j} && (m - {k}).Keys == m.Keys - {k};
      TotalStep(m - {j}, k);
      TotalStep(m - {k}, j);
      assert m - {j} - {k} == m - {k} - {j};
    }
  }

  lemma UnionWithout<K>(a: map<K, real>, b: map<K, real>, k: K)
    requires a.Keys !! b.Keys && k in b
    ensures (a + b) - {k} == a + (b - {k}) && k in a + b && (a + b)[k] == b[k]
    ensures (b - {k}).Keys == b.Keys - {k}
  {
  }

  lemma {:induction false} TotalUnion<K>(a: map<K, real>, b: map<K, real>)
    requires a.Keys !! b.Keys
    ensures Total(a + b) == Total(a) + Total(b)
    decreases |b|
  {
    if b == map[] {
      assert a + b == a;
    } else {
      var k :| k in b;
      UnionWithout(a, b, k);
      TotalStep(a + b, k);
      TotalUnion(a, b - {k});
      TotalStep(b, k);
    }
  }

  lemma TotalInsert<K>(m: map<K, real>, k: K, x: real)
    requires k !in m
    ensures Total(m[k := x]) == Total(m) + x
  {
    TotalStep(m[k := x], k);
    assert m[k := x] - {k} == m;
  }

  ghost function TotalNat<K>(m: map<K, nat>): nat
    decreases |m|
  {
    if m == map[] then 0
    else
      var k :| k in m;
      assert (m - {k}).Keys == m.Keys - {k};
      m[k] + TotalNat(m - {k})
  }

  lemma {:induction false} TotalNatStep<K>(m: map<K, nat>, k: K)
    requires k in m
    ensures TotalNat(m) == m[k] + TotalNat(m - {k})
    decreases |m|
  {
    var j :| j in m && TotalNat(m) == m[j] + TotalNat(m - {j});
    if j != k {
      assert (m - {j}).Keys == m.Keys - {j} && (m - {k}).Keys == m.Keys - {k};
      TotalNatStep(m - {j}, k);
      TotalNatStep(m - {k}, j);
      assert m - {j} - {k} == m - {k} - {j};
    }
  }

  /** Dropping rows or lowering values never raises the total. */
  lemma {:induction false} TotalNatShrinks<K>(small: map<K, nat>, big: map<K, nat>)
    requires forall k :: k in small ==> k in big && small[k] <= big[k]
    ensures TotalNat(small) <= TotalNat(big)
    decreases |big|
  {
    if big == map[] {
      assert small == map[];
    } else {
      var k :| k in big;
      assert (big - {k}).Keys == big.Keys - {k};
      TotalNatStep(big, k);
      if k in small { TotalNatStep(small, k); } else { assert small - {k} == small; }
      TotalNatShrinks(small - {k}, big - {k});
    }
  }
}
