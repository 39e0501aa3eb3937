/** The nearest-rank percentile of the usage report (src/stashd/services/reports.py:91-97). */
module Percentiles {
  import opened Numbers

  function Insert(v: int, ordered: seq<int>): seq<int> {
    if ordered == [] || v <= ordered[0] then [v] + ordered else [ordered[0]] + Insert(v, ordered[1..])
  }

  function Ordered(values: seq<int>): (ordered: seq<int>)
    ensures |ordered| == |values|
  {
    if values == [] then []
    else
      InsertMembers(values[0], Ordered(values[1..]));
      Insert(values[0], Ordered(values[1..]))
  }

  lemma {:induction false} InsertMembers(v: int, ordered: seq<int>)
    ensures |Insert(v, ordered)| == |ordered| + 1
    ensures forall x :: x in Insert(v, ordered) <==> x == v || x in ordered
  {
    if ordered != [] && v > ordered[0] { InsertMembers(v, ordered[1..]); }
  }

  /** How far up: the fraction of the count in whole members, never before the first or past the last. */
  function Rank(share: real, count: nat): int {
    var wanted := Ceil(share);
    if wanted < 1 then 1 else if wanted > count then count else wanted
  }

  function AtShare(values: seq<int>, share: real): int
    requires values != []
  {
    Ordered(values)[Rank(share, |values|) - 1]
  }

  function Percentile(values: seq<int>, fraction: real): int {
    if values == [] then 0 else AtShare(values, fraction * |values| as real)
  }

  function CountAtMost(values: seq<int>, x: int): nat {
    if values == [] then 0 else (if values[0] <= x then 1 else 0) + CountAtMost(values[1..], x)
  }

  lemma {:induction false} InsertCounts(v: int, ordered: seq<int>, x: int)
    ensures CountAtMost(Insert(v, ordered), x) == CountAtMost(ordered, x) + (if v <= x then 1 else 0)
  {
    if ordered != [] && v > ordered[0] { InsertCounts(v, ordered[1..], x); }
  }

  lemma {:induction false} OrderedCounts(values: seq<int>, x: int)
    ensures CountAtMost(Ordered(values), x) == CountAtMost(values, x)
  {
    if values != [] {
      OrderedCounts(values[1..], x);
      InsertCounts(values[0], Ordered(values[1..]), x);
    }
  }

  ghost predicate Rising(values: seq<int>) {
    forall i, j :: 0 <= i < j < |values| ==> values[i] <= values[j]
  }

  lemma {:induction false} InsertRises(v: int, ordered: seq<int>)
    requires Rising(ordered)
    ensures Rising(Insert(v, ordered))
  {
    if ordered != [] && v > ordered[0] {
      InsertRises(v, ordered[1..]);
      InsertMembers(v, ordered[1..]);
      var rest := Insert(v, ordered[1..]);
      forall j | 0 <= j < |rest| ensures ordered[0] <= rest[j] { assert rest[j] in rest; }
    }
  }

  lemma {:induction false} OrderedRises(values: seq<int>)
    ensures Rising(Ordered(values))
  {
    if values != [] {
      OrderedRises(values[1..]);
      InsertRises(values[0], Ordered(values[1..]));
    }
  }

  lemma {:induction false} CountRising(ordered: seq<int>, x: int, k: nat)
    requires Rising(ordered) && k <= |ordered|
    ensures k > 0 && ordered[k - 1] <= x ==> CountAtMost(ordered, x) >= k
    ensures k < |ordered| && ordered[k] > x ==> CountAtMost(ordered, x) <= k
  {
    if ordered != [] {
      if k > 0 {
        CountRising(ordered[1..], x, k - 1);
      } else if ordered[0] > x {
        NoneAtMost(ordered, x);
      }
    }
  }

  lemma {:induction false} NoneAtMost(ordered: seq<int>, x: int)
    requires forall i :: 0 <= i < |ordered| ==> ordered[i] > x
    ensures CountAtMost(ordered, x) == 0
  {
    if ordered != [] { NoneAtMost(ordered[1..], x); }
  }

  lemma CountsIn(ordered: seq<int>, rank: nat, p: int)
    requires Rising(ordered) && 1 <= rank <= |ordered| && p == ordered[rank - 1]
    ensures CountAtMost(ordered, p) >= rank
    ensures CountAtMost(ordered, p - 1) <= rank - 1
  {
    CountRising(ordered, p, rank);
    CountRising(ordered, p - 1, rank - 1);
  }

  lemma CountsAt(values: seq<int>, rank: nat, p: int)
    requires 1 <= rank <= |values| && p == Ordered(values)[rank - 1]
    ensures CountAtMost(values, p) >= rank
    ensures CountAtMost(values, p - 1) <= rank - 1
  {
    OrderedRises(values);
    CountsIn(Ordered(values), rank, p);
    OrderedCounts(values, p);
    OrderedCounts(values, p - 1);
  }

  lemma RankFits(share: real, count: nat)
    requires 0.0 < share <= count as real
    ensures 1 <= Rank(share, count) <= count
    ensures Rank(share, count) as real >= share && Rank(share, count) as real - 1.0 < share
  {
  }

  /** Of the values, as many as the share asks for are at most the percentile, and fewer than that are below it. */
  lemma NearestRank(values: seq<int>, share: real, p: int)
    requires values != [] && 0.0 < share <= |values| as real && p == AtShare(values, share)
    ensures CountAtMost(values, p) as real >= share
    ensures (CountAtMost(values, p - 1) as real) < share
  {
    var rank := Rank(share, |values|);
    RankFits(share, |values|);
    CountsAt(values, rank, p);
    var low, high := CountAtMost(values, p - 1), CountAtMost(values, p);
    assert high as real >= rank as real && low as real <= rank as real - 1.0;
  }
}
