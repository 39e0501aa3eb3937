/** Sums over the values of a finite map: what the database's SUM and COUNT queries return. */
module Sums {

  ghost function Sum<K>(m: map<K, int>): int
    decreases |m|
  {
    if m == map[] then 0
    else
      var k :| k in m;
      m[k] + Sum(m - {k})
  }

  lemma {:induction false} SumSplit<K>(m: map<K, int>, k: K)
    requires k in m
    ensures Sum(m) == m[k] + Sum(m - {k})
    decreases |m|
  {
    var j :| j in m && Sum(m) == m[j] + Sum(m - {j});
    if j != k {
      SumSplit(m - {j}, k);
      SumSplit(m - {k}, j);
      assert m - {j} - {k} == m - {k} - {j};
    }
  }

  function At<K(==)>(m: map<K, int>, k: K): int {
    if k in m then m[k] else 0
  }

  lemma SumSet<K>(m: map<K, int>, k: K, v: int)
    ensures Sum(m[k := v]) == Sum(m) - At(m, k) + v
  {
    SumSplit(m[k := v], k);
    assert m[k := v] - {k} == m - {k};
    if k in m {
      SumSplit(m, k);
    } else {
      assert m - {k} == m;
    }
  }

  lemma {:induction false} SumAtMost<K>(a: map<K, int>, b: map<K, int>)
    requires a.Keys == b.Keys
    requires forall k :: k in a ==> a[k] <= b[k]
    ensures Sum(a) <= Sum(b)
    decreases |a|
  {
    if k :| k in a {
      SumSplit(a, k);
      SumSplit(b, k);
      SumAtMost(a - {k}, b - {k});
    }
  }

  /** Where every value is one or nothing, the sum is how many are one. */
  lemma {:induction false} SumOfOnes<K>(m: map<K, int>, ones: set<K>)
    requires ones <= m.Keys && forall k :: k in m ==> m[k] == if k in ones then 1 else 0
    ensures Sum(m) == |ones|
    decreases |m|
  {
    if m == map[] {
      assert ones == {};
    } else {
      var k :| k in m;
      SumSplit(m, k);
      SumOfOnes(m - {k}, ones - {k});
    }
  }

  /** A loop over the keys, in whatever order, adds one more value at a time. */
  lemma SumTaking<K>(m: map<K, int>, rest: set<K>, k: K)
    requires k in m && k in rest
    ensures Sum(m - (rest - {k})) == Sum(m - rest) + m[k]
  {
    SumSplit(m - (rest - {k}), k);
    assert m - (rest - {k}) - {k} == m - rest;
  }

  lemma CountTaking<K>(all: set<K>, rest: set<K>, k: K)
    requires k in rest
    ensures |all - (rest - {k})| == |all - rest| + (if k in all then 1 else 0)
  {
    assert all - (rest - {k}) == if k in all then all - rest + {k} else all - rest;
  }
}
