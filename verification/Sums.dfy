/** Sums over the values of a finite map, and how an update moves them. */
module Sums {
  ghost function Total(m: map<string, int>): int
    decreases |m|
  {
    if m == map[] then 0
    else
      var k :| k in m;
      m[k] + Total(m - {k})
  }

  lemma {:induction false} TotalSplit(m: map<string, int>, k: string)
    requires k in m
    ensures Total(m) == m[k] + Total(m - {k})
    decreases |m|
  {
    var first :| first in m && Total(m) == m[first] + Total(m - {first});
    if first != k {
      TotalSplit(m - {first}, k);
      TotalSplit(m - {k}, first);
      assert m - {first} - {k} == m - {k} - {first};
    }
  }

  lemma TotalUpdate(m: map<string, int>, k: string, v: int)
    ensures Total(m[k := v]) == Total(m) - (if k in m then m[k] else 0) + v
  {
    TotalSplit(m[k := v], k);
    if k in m {
      TotalSplit(m, k);
      assert m[k := v] - {k} == m - {k};
    } else {
      assert m[k := v] - {k} == m;
    }
  }

  lemma {:induction false} TotalAtLeast(m: map<string, int>, k: string)
    requires forall i :: i in m ==> m[i] >= 0
    ensures Total(m) >= 0
    ensures k in m ==> Total(m) >= m[k]
    decreases |m|
  {
    if k in m {
      TotalSplit(m, k);
      TotalAtLeast(m - {k}, k);
    } else if m != map[] {
      var first :| first in m;
      TotalSplit(m, first);
      TotalAtLeast(m - {first}, first);
    }
  }
}
