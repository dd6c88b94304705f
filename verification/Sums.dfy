/** Sums over the values of a map. */
module Sums {

  ghost function Total(m: map<string, int>): (sum: int)
    ensures (forall k | k in m :: m[k] >= 0) ==> sum >= 0
  {
    if m == map[] then 0 else var k :| k in m; m[k] + Total(m - {k})
  }

  lemma {:induction false} TotalSplit(m: map<string, int>, k: string)
    requires k in m
    ensures Total(m) == m[k] + Total(m - {k})
    decreases |m|
  {
    var j :| j in m && Total(m) == m[j] + Total(m - {j});
    if j != k {
      TotalSplit(m - {j}, k);
      TotalSplit(m - {k}, j);
      assert m - {j} - {k} == m - {k} - {j};
    }
  }

  lemma {:induction false} TotalMore(m: map<string, int>, n: map<string, int>)
    requires forall k | k in m :: k in n && m[k] <= n[k]
    requires forall k | k in n :: n[k] >= 0
    ensures Total(m) <= Total(n)
    decreases |m|
  {
    if k :| k in m {
      TotalSplit(m, k);
      TotalSplit(n, k);
      TotalMore(m - {k}, n - {k});
    } else {
      assert m == map[] && Total(n) >= 0;
    }
  }

  lemma {:induction false} TotalParts(m: map<string, int>, part: set<string>)
    ensures Total(m) == Total(m - part) + Total(m - (m.Keys - part))
    decreases |part|
  {
    if k :| k in part {
      TotalParts(m, part - {k});
      var without, within := m - (part - {k}), m - (m.Keys - part);
      if k in m {
        TotalSplit(without, k);
        TotalSplit(within, k);
        assert without - {k} == m - part;
        assert within - {k} == m - (m.Keys - (part - {k}));
      } else {
        assert without == m - part && within == m - (m.Keys - (part - {k}));
      }
    } else {
      var none: map<string, int> := map[];
      assert m - part == m && m - (m.Keys - part) == none;
      assert Total(none) == 0;
    }
  }

  lemma TotalPut(m: map<string, int>, k: string, v: int)
    ensures Total(m[k := v]) == Total(m - {k}) + v
    ensures k !in m ==> Total(m[k := v]) == Total(m) + v
  {
    TotalSplit(m[k := v], k);
    assert m[k := v] - {k} == m - {k};
    assert k !in m ==> m - {k} == m;
  }
}
