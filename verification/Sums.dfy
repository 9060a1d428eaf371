/** Sums over the entries of a finite map, for arguments about any number of processes. */
module Sums {

  lemma Inhabited(s: set<int>)
    ensures s == {} || exists p :: p in s
  {
    assert (forall p :: p !in s) ==> s == {};
  }

  ghost function Sum(m: map<int, int>): int {
    if m == map[] then 0
    else
      Inhabited(m.Keys);
      var k :| k in m;
      m[k] + Sum(m - {k})
  }

  lemma {:induction false} SumRemove(m: map<int, int>, k: int)
    requires k in m
    ensures Sum(m) == m[k] + Sum(m - {k})
    decreases |m|
  {
    Inhabited(m.Keys);
    var j :| j in m && Sum(m) == m[j] + Sum(m - {j});
    if j != k {
      SumRemove(m - {j}, k);
      SumRemove(m - {k}, j);
      assert m - {j} - {k} == m - {k} - {j};
    }
  }

  lemma {:induction false} SumMonotone(m: map<int, int>, n: map<int, int>)
    requires m.Keys == n.Keys && forall k :: k in m ==> m[k] <= n[k]
    ensures Sum(m) <= Sum(n)
    decreases |m|
  {
    if m != map[] {
      Inhabited(m.Keys);
      var k :| k in m;
      SumRemove(m, k);
      SumRemove(n, k);
      SumMonotone(m - {k}, n - {k});
    } else {
      assert n == map[];
    }
  }

  lemma SumSmaller(m: map<int, int>, n: map<int, int>, p: int)
    requires m.Keys == n.Keys && forall k :: k in m ==> m[k] <= n[k]
    requires p in m && m[p] < n[p]
    ensures Sum(m) < Sum(n)
  {
    SumRemove(m, p);
    SumRemove(n, p);
    SumMonotone(m - {p}, n - {p});
  }

  lemma SumUpdate(m: map<int, int>, p: int, v: int)
    ensures Sum(m[p := v]) == Sum(m) - (if p in m then m[p] else 0) + v
  {
    SumRemove(m[p := v], p);
    if p in m {
      SumRemove(m, p);
      assert m[p := v] - {p} == m - {p};
    } else {
      assert m[p := v] - {p} == m;
    }
  }
}
