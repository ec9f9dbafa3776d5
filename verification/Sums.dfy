/** Sums over the values of a map. */
module Sums {
  lemma HasKey<V>(m: map<int, V>)
    ensures m == map[] || exists k :: k in m
  {
    assert (forall k :: k !in m) ==> m == map[];
  }

  ghost function Total(m: map<int, int>): int
    decreases m.Keys
  {
    if m == map[] then 0
    else
      HasKey(m);
      var k :| k in m;
      m[k] + Total(m - {k})
  }

  lemma {:induction false} TotalRemove(m: map<int, int>, k: int)
    requires k in m
    ensures Total(m) == m[k] + Total(m - {k})
    decreases m.Keys
  {
    var j :| j in m && Total(m) == m[j] + Total(m - {j});
    if j != k {
      assert (m - {j}) - {k} == (m - {k}) - {j};
      TotalRemove(m - {j}, k);
      TotalRemove(m - {k}, j);
    }
  }

  lemma TotalUpdate(m: map<int, int>, k: int, v: int)
    requires k in m
    ensures Total(m[k := v]) == Total(m) - m[k] + v
  {
    TotalRemove(m, k);
    TotalRemove(m[k := v], k);
    assert m[k := v] - {k} == m - {k};
  }

  lemma {:induction false} TotalAtMost(a: map<int, int>, b: map<int, int>)
    requires a.Keys <= b.Keys && forall k :: k in b ==> (if k in a then a[k] <= b[k] else 0 <= b[k])
    ensures Total(a) <= Total(b)
    decreases b.Keys
  {
    if b != map[] {
      HasKey(b);
      var k :| k in b;
      TotalRemove(b, k);
      if k in a { TotalRemove(a, k); }
      assert k !in a ==> a - {k} == a;
      TotalAtMost(a - {k}, b - {k});
    }
  }

  lemma {:induction false} TotalOf(m: map<int, int>, c: int)
    requires forall k :: k in m ==> m[k] == c
    ensures Total(m) == c * |m|
    decreases m.Keys
  {
    if m != map[] {
      HasKey(m);
      var k :| k in m;
      TotalRemove(m, k);
      TotalOf(m - {k}, c);
      OneLess(m, k);
      Distribute(c, |m - {k}|);
    }
  }

  lemma OneLess(m: map<int, int>, k: int)
    requires k in m
    ensures |m| == |m - {k}| + 1
  {
    assert m.Keys == (m - {k}).Keys + {k};
    assert |m| == |m.Keys| && |m - {k}| == |(m - {k}).Keys|;
  }

  lemma Distribute(c: int, n: int)
    ensures c * (n + 1) == c * n + c
  {}
}
