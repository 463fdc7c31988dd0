/** Sums over finite maps, for totals kept beside the records they count. */
module MapSums {
  ghost function Sum(m: map<string, nat>): nat
    decreases |m|
  {
    if m == map[] then 0 else
      var k :| k in m;
      RemoveShrinks(m, k);
      m[k] + Sum(m - {k})
  }

  lemma RemoveShrinks(m: map<string, nat>, k: string)
    requires k in m
    ensures |m - {k}| < |m|
  {
    assert (m - {k}).Keys == m.Keys - {k};
    assert |m| == |m.Keys| && |m - {k}| == |(m - {k}).Keys|;
  }

  lemma {:induction false} SumRemove(m: map<string, nat>, k: string)
    requires k in m
    ensures Sum(m) == m[k] + Sum(m - {k})
    decreases |m|
  {
    var j :| j in m && Sum(m) == m[j] + Sum(m - {j});
    if j != k {
      RemoveShrinks(m, j);
      RemoveShrinks(m, k);
      SumRemove(m - {j}, k);
      SumRemove(m - {k}, j);
      assert m - {j} - {k} == m - {k} - {j};
    }
  }

  lemma {:induction false} SumSubmap(small: map<string, nat>, big: map<string, nat>)
    requires small.Keys <= big.Keys && forall k :: k in small ==> small[k] == big[k]
    ensures Sum(small) <= Sum(big)
    decreases |small|
  {
    if small != map[] {
      var k :| k in small;
      SumRemove(small, k);
      SumRemove(big, k);
      RemoveShrinks(small, k);
      SumSubmap(small - {k}, big - {k});
    }
  }
}
