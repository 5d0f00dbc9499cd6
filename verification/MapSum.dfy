/** Sums of the values of a finite map, and how one insertion or update changes them. */
module MapSum {

  ghost function Sum(m: map<string, int>): int
    decreases |m|
  {
    if m == map[] then 0 else
      var k :| k in m;
      assert |m - {k}| < |m| by { assert (m - {k}).Keys == m.Keys - {k}; }
      m[k] + Sum(m - {k})
  }

  // The sum does not depend on the key that is taken out first.
  lemma {:induction false} SumRemove(m: map<string, int>, k: string)
    requires k in m
    ensures Sum(m) == m[k] + Sum(m - {k})
    decreases |m|
  {
    var j :| j in m && Sum(m) == m[j] + Sum(m - {j});
    if j != k {
      var mj, mk := m - {j}, m - {k};
      assert mj.Keys == m.Keys - {j} && |mj| == |m| - 1;
      assert mk.Keys == m.Keys - {k} && |mk| == |m| - 1;
      SumRemove(mj, k);
      SumRemove(mk, j);
      assert mj - {k} == mk - {j};
    }
  }

  /** Setting one key moves the sum by the difference of the new and the old value. */
  lemma SumUpdate(m: map<string, int>, k: string, v: int)
    ensures Sum(m[k := v]) == Sum(m) + v - (if k in m then m[k] else 0)
  {
    var n := m[k := v];
    SumRemove(n, k);
    if k in m {
      SumRemove(m, k);
      assert n - {k} == m - {k};
    } else {
      assert n - {k} == m;
    }
  }

  /** A key that maps to zero can be dropped or added freely. */
  lemma {:induction false} SumZeros(m: map<string, int>)
    requires forall k | k in m :: m[k] == 0
    ensures Sum(m) == 0
    decreases |m|
  {
    if m != map[] {
      var k :| k in m;
      assert (m - {k}).Keys == m.Keys - {k};
      SumRemove(m, k);
      SumZeros(m - {k});
    }
  }
}
