/** The usage report (src/stashd/services/reports.py), and what pruning does to it. */
module Reports {
  import opened Options
  import opened Sums
  import opened Transfers
  import opened Tables
  import opened Retention
  import opened Runs
  import opened Percentiles
  import References
  import Scheduling
  import FS = Filesets

  datatype GroupBy = ByUser | ByStorage | ByRoute | ByLocation

  /** One end of a window: an instant, and how far the clock it was written by is ahead of UTC. */
  datatype Bound = Bound(at: int, offset: int) {
    /** The date that clock showed, which need not be the UTC date of the instant. */
    function LocalDate(): int { DayOf(at + offset) }
  }

  /** One line of a report: its grouping and key, and the window it is asked for. */
  datatype Line = Line(grouping: GroupBy, key: string, since: Option<Bound>, until: Option<Bound>)

  /** Where a storage is; one the config no longer knows goes by its id. */
  function LocationOf(cfg: Cluster, storage: string): string {
    if storage in cfg.storages then cfg.storages[storage].location else storage
  }

  function Key(cfg: Cluster, grouping: GroupBy, t: Transfer, storage: string): string {
    match grouping
    case ByUser => t.user
    case ByRoute => References.RouteText(t.route.source, t.route.target)
    case ByStorage => storage
    case ByLocation => LocationOf(cfg, storage)
  }

  function RolledUpKey(cfg: Cluster, grouping: GroupBy, k: BucketKey): string {
    match grouping
    case ByUser => k.user
    case ByRoute => References.RouteText(k.route.source, k.route.target)
    case ByStorage => k.storage
    case ByLocation => LocationOf(cfg, k.storage)
  }

  predicate InWindow(at: int, since: Option<Bound>, until: Option<Bound>) {
    (since.Some? ==> since.value.at <= at) && (until.Some? ==> at < until.value.at)
  }

  predicate DayInWindow(day: int, since: Option<Bound>, until: Option<Bound>) {
    (since.Some? ==> since.value.LocalDate() <= day) && (until.Some? ==> day < until.value.LocalDate())
  }

  /** The columns a report adds up; durations are in microseconds. */
  datatype Column = Bytes | Count | SucceededCount | Running_ | Waited | CountedWaits

  function OfTransfer(t: Transfer, c: Column): int {
    match c
    case Bytes => t.bytesDone
    case Count => 1
    case SucceededCount => if t.state == Succeeded then 1 else 0
    case Running_ => if t.startedAt.Some? && t.finishedAt.Some? then t.finishedAt.value - t.startedAt.value else 0
    case Waited => if t.startedAt.Some? then t.startedAt.value - t.submittedAt else 0
    case CountedWaits => if t.startedAt.Some? then 1 else 0
  }

  function OfBucket(b: Bucket, c: Column): int {
    match c
    case Bytes => b.bytes
    case Count => b.transfers
    case SucceededCount => b.succeeded
    case Running_ => b.runSeconds * SECOND
    case Waited => b.waitSeconds * SECOND
    case CountedWaits => b.transfers
  }

  predicate Reported(cfg: Cluster, db: Database, line: Line, i: nat) {
    && i in db.transfers
    && IsTerminal(db.transfers[i].state)
    && db.transfers[i].filesetId in db.filesets
    && InWindow(db.transfers[i].submittedAt, line.since, line.until)
    && Key(cfg, line.grouping, db.transfers[i], db.filesets[db.transfers[i].filesetId].storage) == line.key
  }

  /** A row is on a line if and only if it has ended, was submitted in the window, and is of the line's user, route,
      storage or location; a storage the config does not know is a location of its own. */
  lemma ReportedIff(cfg: Cluster, db: Database, line: Line, i: nat)
    requires Linked(db)
    ensures Reported(cfg, db, line, i)
      <==> && i in db.transfers && db.transfers[i].state in {Succeeded, Failed, Cancelled}
           && (line.since.Some? ==> db.transfers[i].submittedAt >= line.since.value.at)
           && (line.until.Some? ==> db.transfers[i].submittedAt < line.until.value.at)
           && var t, storage := db.transfers[i], db.filesets[db.transfers[i].filesetId].storage;
              && (line.grouping == ByUser ==> line.key == t.user)
              && (line.grouping == ByRoute ==> line.key == t.route.source + "->" + t.route.target)
              && (line.grouping == ByStorage ==> line.key == storage)
              && (line.grouping == ByLocation ==>
                   line.key == (if storage in cfg.storages then cfg.storages[storage].location else storage))
  {
  }

  predicate BucketReported(cfg: Cluster, line: Line, k: BucketKey) {
    DayInWindow(k.day, line.since, line.until) && RolledUpKey(cfg, line.grouping, k) == line.key
  }

  function RowWeights(cfg: Cluster, db: Database, line: Line, c: Column): map<nat, int> {
    map i | i in db.transfers :: if Reported(cfg, db, line, i) then OfTransfer(db.transfers[i], c) else 0
  }

  function BucketWeights(cfg: Cluster, stats: map<BucketKey, Bucket>, line: Line, c: Column): map<BucketKey, int> {
    map k | k in stats :: if BucketReported(cfg, line, k) then OfBucket(stats[k], c) else 0
  }

  ghost function RowTotal(cfg: Cluster, db: Database, line: Line, c: Column): int { Sum(RowWeights(cfg, db, line, c)) }

  ghost function BucketTotal(cfg: Cluster, stats: map<BucketKey, Bucket>, line: Line,
                             c: Column): int { Sum(BucketWeights(cfg, stats, line, c)) }

  /** What the report shows in one column of one line. */
  ghost function Total(cfg: Cluster, db: Database, line: Line, c: Column): int {
    RowTotal(cfg, db, line, c) + BucketTotal(cfg, db.stats, line, c)
  }

  /** The sums a report keeps for one key. */
  datatype Totals = Totals(bytes: int, transfers: int, succeeded: int, running: int, waited: int, countedWaits: int) {
    function Of(c: Column): int {
      match c
      case Bytes => bytes
      case Count => transfers
      case SucceededCount => succeeded
      case Running_ => running
      case Waited => waited
      case CountedWaits => countedWaits
    }
  }

  function Cell(totals: map<string, Totals>, key: string, c: Column): int {
    if key in totals then totals[key].Of(c) else 0
  }

  /** A report: one line for each key that comes up. */
  datatype Query = Query(grouping: GroupBy, since: Option<Bound>, until: Option<Bound>) {
    function For(key: string): Line { Line(grouping, key, since, until) }
  }

  /** The totals hold every row but those still to come, under the keys that came up. */
  ghost predicate RowsGathered(cfg: Cluster, db: Database, q: Query, totals: map<string, Totals>, rest: set<nat>) {
    && (forall key, c :: Cell(totals, key, c) == Sum(RowWeights(cfg, db, q.For(key), c) - rest))
    && (forall key :: key in totals <==> exists i :: i !in rest && Reported(cfg, db, q.For(key), i))
  }

  lemma NoRowsGathered(cfg: Cluster, db: Database, q: Query)
    ensures RowsGathered(cfg, db, q, map[], db.transfers.Keys)
  {
    forall key, c ensures Sum(RowWeights(cfg, db, q.For(key), c) - db.transfers.Keys) == 0 {
      assert RowWeights(cfg, db, q.For(key), c) - db.transfers.Keys == map[];
    }
  }

  lemma OneRowGathered(cfg: Cluster, db: Database, q: Query, totals: map<string, Totals>, rest: set<nat>, i: nat,
                       more: map<string, Totals>)
    requires RowsGathered(cfg, db, q, totals, rest) && i in db.transfers && i in rest
    requires forall key, c ::
      Cell(more, key, c) == Cell(totals, key, c)
      + (if Reported(cfg, db, q.For(key), i) then OfTransfer(db.transfers[i], c) else 0)
    requires forall key :: key in more <==> key in totals || Reported(cfg, db, q.For(key), i)
    ensures RowsGathered(cfg, db, q, more, rest - {i})
  {
    forall key, c ensures Cell(more, key, c) == Sum(RowWeights(cfg, db, q.For(key), c) - (rest - {i})) {
      SumTaking(RowWeights(cfg, db, q.For(key), c), rest, i);
    }
    forall key ensures key in more <==> exists j :: j !in rest - {i} && Reported(cfg, db, q.For(key), j) {
    }
  }

  /** The same for the buckets, on top of what the rows came to. */
  ghost predicate BucketsGathered(cfg: Cluster, stats: map<BucketKey, Bucket>, q: Query, rows: map<string, Totals>,
                                  totals: map<string, Totals>, rest: set<BucketKey>) {
    && (forall key, c ::
          Cell(totals, key, c) == Cell(rows, key, c) + Sum(BucketWeights(cfg, stats, q.For(key), c) - rest))
    && (forall key :: key in totals <==> key in rows || exists k ::
          k in stats && k !in rest && BucketReported(cfg, q.For(key), k))
  }

  lemma NoBucketsGathered(cfg: Cluster, stats: map<BucketKey, Bucket>, q: Query, rows: map<string, Totals>)
    ensures BucketsGathered(cfg, stats, q, rows, rows, stats.Keys)
  {
    forall key, c ensures Sum(BucketWeights(cfg, stats, q.For(key), c) - stats.Keys) == 0 {
      assert BucketWeights(cfg, stats, q.For(key), c) - stats.Keys == map[];
    }
  }

  lemma OneBucketGathered(cfg: Cluster, stats: map<BucketKey, Bucket>, q: Query, rows: map<string, Totals>,
                          totals: map<string, Totals>, rest: set<BucketKey>, k: BucketKey, more: map<string, Totals>)
    requires BucketsGathered(cfg, stats, q, rows, totals, rest) && k in stats && k in rest
    requires forall key, c ::
      Cell(more, key, c) == Cell(totals, key, c)
      + (if BucketReported(cfg, q.For(key), k) then OfBucket(stats[k], c) else 0)
    requires forall key :: key in more <==> key in totals || BucketReported(cfg, q.For(key), k)
    ensures BucketsGathered(cfg, stats, q, rows, more, rest - {k})
  {
    forall key, c
      ensures Cell(more, key, c) == Cell(rows, key, c) + Sum(BucketWeights(cfg, stats, q.For(key), c) - (rest - {k})) {
      SumTaking(BucketWeights(cfg, stats, q.For(key), c), rest, k);
    }
    forall key
      ensures key in more
        <==> key in rows || exists j :: j in stats && j !in rest - {k} && BucketReported(cfg, q.For(key), j) {
    }
  }

  // ---- The waits, one by one ----

  /** The rows of a line that started, after no more than `x`. */
  ghost function Waiters(cfg: Cluster, db: Database, line: Line, x: int): set<nat> {
    set i | i in db.transfers && Reported(cfg, db, line, i) && db.transfers[i].startedAt.Some?
      && OfTransfer(db.transfers[i], Waited) <= x
  }

  /** All of them. */
  ghost function Starters(cfg: Cluster, db: Database, line: Line): set<nat> {
    set i | i in db.transfers && Reported(cfg, db, line, i) && db.transfers[i].startedAt.Some?
  }

  function WaitsAt(waits: map<string, seq<int>>, key: string): seq<int> {
    if key in waits then waits[key] else []
  }

  ghost predicate WaitsGathered(cfg: Cluster, db: Database, q: Query, waits: map<string, seq<int>>, rest: set<nat>) {
    && (forall key, x :: CountAtMost(WaitsAt(waits, key), x) == |Waiters(cfg, db, q.For(key), x) - rest|)
    && (forall key :: |WaitsAt(waits, key)| == |Starters(cfg, db, q.For(key)) - rest|)
  }

  lemma NoneWaiting(cfg: Cluster, db: Database, line: Line, x: int)
    ensures |Waiters(cfg, db, line, x) - db.transfers.Keys| == 0
    ensures |Starters(cfg, db, line) - db.transfers.Keys| == 0
  {
    assert Waiters(cfg, db, line, x) - db.transfers.Keys == {};
    assert Starters(cfg, db, line) - db.transfers.Keys == {};
  }

  lemma NoWaitsGathered(cfg: Cluster, db: Database, q: Query)
    ensures WaitsGathered(cfg, db, q, map[], db.transfers.Keys)
  {
    forall key, x ensures |Waiters(cfg, db, q.For(key), x) - db.transfers.Keys| == 0 {
      NoneWaiting(cfg, db, q.For(key), x);
    }
    forall key ensures |Starters(cfg, db, q.For(key)) - db.transfers.Keys| == 0 { NoneWaiting(cfg, db, q.For(key), 0); }
  }

  /** The wait of one more row is put in front of those of its key; the order of a list of waits is never looked at. */
  lemma OneWaitGathered(cfg: Cluster, db: Database, q: Query, waits: map<string, seq<int>>, rest: set<nat>, i: nat,
                        more: map<string, seq<int>>)
    requires WaitsGathered(cfg, db, q, waits, rest) && i in db.transfers && i in rest
    requires forall key :: WaitsAt(more, key) ==
               if Reported(cfg, db, q.For(key), i) && db.transfers[i].startedAt.Some?
               then [OfTransfer(db.transfers[i], Waited)] + WaitsAt(waits, key) else WaitsAt(waits, key)
    ensures WaitsGathered(cfg, db, q, more, rest - {i})
  {
    forall key, x ensures CountAtMost(WaitsAt(more, key), x) == |Waiters(cfg, db, q.For(key), x) - (rest - {i})| {
      CountTaking(Waiters(cfg, db, q.For(key), x), rest, i);
      CountsOneMore(OfTransfer(db.transfers[i], Waited), WaitsAt(waits, key), x);
    }
    forall key ensures |WaitsAt(more, key)| == |Starters(cfg, db, q.For(key)) - (rest - {i})| {
      CountTaking(Starters(cfg, db, q.For(key)), rest, i);
    }
  }

  lemma CountsOneMore(v: int, values: seq<int>, x: int)
    ensures CountAtMost([v] + values, x) == CountAtMost(values, x) + (if v <= x then 1 else 0)
  {
    assert ([v] + values)[1..] == values;
  }

  /** A quotient, and zero where there is nothing to divide by. */
  ghost predicate IsQuotient(q: real, a: int, b: int) {
    if b == 0 then q == 0.0 else q * b as real == a as real
  }

  function Quotient(a: int, b: int): (q: real)
    ensures IsQuotient(q, a, b)
  {
    if b == 0 then 0.0 else a as real / b as real
  }

  /** Of so many known waits, nineteen in twenty are no more than this and fewer are less. */
  ghost predicate TailCounts(known: nat, atMost: nat, below: nat, p95: int) {
    if known == 0 then p95 == 0 else atMost as real >= 0.95 * known as real && (below as real) < 0.95 * known as real
  }

  ghost predicate IsTail(cfg: Cluster, db: Database, line: Line, p95: int) {
    TailCounts(|Starters(cfg, db, line)|, |Waiters(cfg, db, line, p95)|, |Waiters(cfg, db, line, p95 - 1)|, p95)
  }

  lemma TailOfValues(values: seq<int>, p95: int)
    requires p95 == Percentile(values, 0.95)
    ensures TailCounts(|values|, CountAtMost(values, p95), CountAtMost(values, p95 - 1), p95)
  {
    if values != [] { NearestRank(values, 0.95 * |values| as real, p95); }
  }

  lemma WaitersKnown(cfg: Cluster, db: Database, q: Query, waits: map<string, seq<int>>, key: string, x: int)
    requires WaitsGathered(cfg, db, q, waits, {})
    ensures |Waiters(cfg, db, q.For(key), x)| == CountAtMost(WaitsAt(waits, key), x)
    ensures |Starters(cfg, db, q.For(key))| == |WaitsAt(waits, key)|
  {
    assert Starters(cfg, db, q.For(key)) - {} == Starters(cfg, db, q.For(key));
    assert Waiters(cfg, db, q.For(key), x) - {} == Waiters(cfg, db, q.For(key), x);
  }

  lemma TailOfWaits(cfg: Cluster, db: Database, q: Query, waits: map<string, seq<int>>, key: string, p95: int)
    requires WaitsGathered(cfg, db, q, waits, {})
    requires TailCounts(|WaitsAt(waits, key)|, CountAtMost(WaitsAt(waits, key), p95),
                        CountAtMost(WaitsAt(waits, key), p95 - 1), p95)
    ensures IsTail(cfg, db, q.For(key), p95)
  {
    WaitersKnown(cfg, db, q, waits, key, p95);
    WaitersKnown(cfg, db, q, waits, key, p95 - 1);
  }

  /** One line of the report; times are in microseconds. */
  datatype UsageGroup = UsageGroup(bytes: int, transfers: int, succeeded: int, successRate: real, meanWait: real,
                                   p95Wait: int, throughput: real)

  /** The line is what the rows and buckets of the window say. */
  ghost predicate Says(cfg: Cluster, db: Database, line: Line, g: UsageGroup) {
    && g.bytes == Total(cfg, db, line, Bytes) && g.transfers == Total(cfg, db, line, Count)
    && g.succeeded == Total(cfg, db, line, SucceededCount)
    && IsQuotient(g.successRate, Total(cfg, db, line, SucceededCount), Total(cfg, db, line, Count))
    && IsQuotient(g.meanWait, Total(cfg, db, line, Waited), Total(cfg, db, line, CountedWaits))
    && IsQuotient(g.throughput, Total(cfg, db, line, Bytes), Total(cfg, db, line, Running_))
    && IsTail(cfg, db, line, g.p95Wait)
  }

  function GroupOf(t: Totals, waits: seq<int>): UsageGroup {
    UsageGroup(t.bytes, t.transfers, t.succeeded, Quotient(t.succeeded, t.transfers),
               Quotient(t.waited, t.countedWaits),
               Percentile(waits, 0.95), Quotient(t.bytes, t.running))
  }

  lemma GroupSays(cfg: Cluster, db: Database, q: Query, totals: map<string, Totals>, waits: map<string, seq<int>>,
                  key: string)
    requires key in totals && WaitsGathered(cfg, db, q, waits, {})
    requires forall c :: Cell(totals, key, c) == Total(cfg, db, q.For(key), c)
    ensures Says(cfg, db, q.For(key), GroupOf(totals[key], WaitsAt(waits, key)))
  {
    var p95 := Percentile(WaitsAt(waits, key), 0.95);
    TailOfValues(WaitsAt(waits, key), p95);
    TailOfWaits(cfg, db, q, waits, key, p95);
    var t := totals[key];
    assert t.bytes == Cell(totals, key, Bytes) && t.transfers == Cell(totals, key, Count);
    assert t.succeeded == Cell(totals, key, SucceededCount) && t.running == Cell(totals, key, Running_);
    assert t.waited == Cell(totals, key, Waited) && t.countedWaits == Cell(totals, key, CountedWaits);
  }

  /** The keys a report has a line for. */
  ghost predicate Shown(cfg: Cluster, db: Database, line: Line) {
    (exists i :: Reported(cfg, db, line, i)) || (exists k :: k in db.stats && BucketReported(cfg, line, k))
  }

  lemma AllGathered(cfg: Cluster, db: Database, q: Query, rows: map<string, Totals>, totals: map<string, Totals>)
    requires RowsGathered(cfg, db, q, rows, {}) && BucketsGathered(cfg, db.stats, q, rows, totals, {})
    ensures forall key, c :: Cell(totals, key, c) == Total(cfg, db, q.For(key), c)
    ensures forall key :: key in totals <==> Shown(cfg, db, q.For(key))
  {
    forall key, c ensures Cell(totals, key, c) == Total(cfg, db, q.For(key), c) {
      assert RowWeights(cfg, db, q.For(key), c) - {} == RowWeights(cfg, db, q.For(key), c);
      assert BucketWeights(cfg, db.stats, q.For(key), c) - {} == BucketWeights(cfg, db.stats, q.For(key), c);
    }
  }

  // ---- One prune, row by row ----

  predicate Leaves(cfg: Cluster, db: Database, before: int, line: Line, i: nat) {
    Expired(db, i, before) && Reported(cfg, db, line, i)
  }

  predicate Arrives(cfg: Cluster, db: Database, before: int, line: Line, i: nat) {
    Expired(db, i, before)
      && BucketReported(cfg, line, KeyFor(db.transfers[i], db.filesets[db.transfers[i].filesetId].storage))
  }

  /** What the expired rows with an id below `n` take out of the rows of a line. */
  function Leaving(cfg: Cluster, db: Database, before: int, line: Line, c: Column, n: nat): int {
    if n == 0 then 0
    else
      Leaving(cfg, db, before, line, c, n - 1)
      + (if Leaves(cfg, db, before, line, n - 1) then OfTransfer(db.transfers[n - 1], c) else 0)
  }

  /** What they bring into its buckets. */
  function Arriving(cfg: Cluster, db: Database, before: int, line: Line, c: Column, n: nat): int {
    if n == 0 then 0
    else
      Arriving(cfg, db, before, line, c, n - 1)
      + (if Arrives(cfg, db, before, line, n - 1) then OfBucket(Added(NO_TRANSFERS, db.transfers[n - 1]), c) else 0)
  }

  lemma RollUpAdds(cfg: Cluster, stats: map<BucketKey, Bucket>, t: Transfer, storage: string, line: Line, c: Column)
    ensures BucketTotal(cfg, RollUp(stats, t, storage), line, c) == BucketTotal(cfg, stats, line, c)
         + (if BucketReported(cfg, line, KeyFor(t, storage)) then OfBucket(Added(NO_TRANSFERS, t), c) else 0)
  {
    var key := KeyFor(t, storage);
    var w := BucketWeights(cfg, stats, line, c);
    var v := if BucketReported(cfg, line, key) then OfBucket(Added(BucketAt(stats, key), t), c) else 0;
    SumSet(w, key, v);
    assert BucketWeights(cfg, RollUp(stats, t, storage), line, c) == w[key := v];
  }

  lemma {:induction false} BucketsGain(cfg: Cluster, db: Database, before: int, line: Line, c: Column, n: nat)
    ensures BucketTotal(cfg, RolledUp(db, before, n), line, c)
      == BucketTotal(cfg, db.stats, line, c) + Arriving(cfg, db, before, line, c, n)
  {
    if n > 0 {
      BucketsGain(cfg, db, before, line, c, n - 1);
      if Expired(db, n - 1, before) {
        RollUpAdds(cfg, RolledUp(db, before, n - 1), db.transfers[n - 1],
                   db.filesets[db.transfers[n - 1].filesetId].storage, line, c);
      }
    }
  }

  ghost function Kept(cfg: Cluster, db: Database, before: int, line: Line, c: Column, n: nat): map<nat, int> {
    map i | i in db.transfers && !(i < n && Expired(db, i, before)) :: RowWeights(cfg, db, line, c)[i]
  }

  lemma OneMoreGoes(cfg: Cluster, db: Database, before: int, line: Line, c: Column, i: nat)
    ensures var kept, kept' := Kept(cfg, db, before, line, c, i), Kept(cfg, db, before, line, c, i + 1);
      if Expired(db, i, before) then i in kept && kept[i] == RowWeights(cfg, db, line, c)[i] && kept' == kept - {i}
      else kept' == kept
  {
  }

  lemma {:induction false} RowsLose(cfg: Cluster, db: Database, before: int, line: Line, c: Column, n: nat)
    ensures Sum(Kept(cfg, db, before, line, c, n)) == RowTotal(cfg, db, line, c) - Leaving(cfg, db, before, line, c, n)
  {
    if n == 0 {
      assert Kept(cfg, db, before, line, c, 0) == RowWeights(cfg, db, line, c);
    } else {
      var i: nat := n - 1;
      RowsLose(cfg, db, before, line, c, i);
      OneMoreGoes(cfg, db, before, line, c, i);
      if Expired(db, i, before) { SumSplit(Kept(cfg, db, before, line, c, i), i); }
    }
  }

  lemma PruneKeeps(cfg: Cluster, db: Database, now: int, line: Line, c: Column)
    requires Linked(db)
    ensures RowWeights(cfg, Prune(cfg, db, now), line, c)
      == Kept(cfg, db, now - cfg.retention, line, c, db.nextTransfer)
  {
  }

  /** A prune moves a line by what arrives in its buckets less what leaves its rows. */
  lemma PruneMoves(cfg: Cluster, db: Database, now: int, line: Line, c: Column)
    requires Linked(db)
    ensures var before, n := now - cfg.retention, db.nextTransfer;
      && Total(cfg, Prune(cfg, db, now), line, c)
           == Total(cfg, db, line, c) + Arriving(cfg, db, before, line, c, n) - Leaving(cfg, db, before, line, c, n)
      && RowTotal(cfg, Prune(cfg, db, now), line, c)
           == RowTotal(cfg, db, line, c) - Leaving(cfg, db, before, line, c, n)
  {
    BucketsGain(cfg, db, now - cfg.retention, line, c, db.nextTransfer);
    RowsLose(cfg, db, now - cfg.retention, line, c, db.nextTransfer);
    PruneKeeps(cfg, db, now, line, c);
  }

  // ---- Windows ----

  /** The bound is the UTC midnight its own date begins with. */
  predicate AtMidnight(b: Bound) {
    b.at == b.LocalDate() * DAY
  }

  /** Each bound is such a midnight, or there is nothing in the window whether it is read by instants or by dates. */
  predicate Aligned(since: Option<Bound>, until: Option<Bound>) {
    || (since.Some? && until.Some? && until.value.at <= since.value.at
        && until.value.LocalDate() <= since.value.LocalDate())
    || ((since.Some? ==> AtMidnight(since.value)) && (until.Some? ==> AtMidnight(until.value)))
  }

  /** What the guard comes to: midnight UTC, written by a clock that is at UTC or less than a day ahead of it. */
  lemma AtMidnightIff(b: Bound)
    ensures AtMidnight(b) <==> b.at % DAY == 0 && 0 <= b.offset < DAY
  {
    var day := b.LocalDate();
    assert day * DAY <= b.at + b.offset < (day + 1) * DAY;
    if b.at % DAY == 0 && 0 <= b.offset < DAY {
      var d := b.at / DAY;
      assert d * DAY == b.at;
      assert day == d;
    } else if AtMidnight(b) {
      Multiple(day);
    }
  }

  lemma Multiple(d: int)
    ensures d * DAY % DAY == 0
  {
  }

  /** By date, a window holds the instants from the first date's UTC midnight up to the last's. */
  lemma DaysAreInstants(at: int, since: Option<Bound>, until: Option<Bound>)
    ensures DayInWindow(DayOf(at), since, until)
       <==> (since.Some? ==> since.value.LocalDate() * DAY <= at)
            && (until.Some? ==> at < until.value.LocalDate() * DAY)
  {
  }

  /** Asking by day is asking by instant exactly when the window is aligned. */
  lemma AlignedIff(since: Option<Bound>, until: Option<Bound>)
    ensures Aligned(since, until)
      <==> forall at: int :: InWindow(at, since, until) <==> DayInWindow(DayOf(at), since, until)
  {
    if Aligned(since, until) {
      forall at: int ensures InWindow(at, since, until) <==> DayInWindow(DayOf(at), since, until) {
        DaysAreInstants(at, since, until);
      }
    } else {
      var at := Misfit(since, until);
    }
  }

  /** An instant that an unaligned window and its days disagree about. */
  lemma Misfit(since: Option<Bound>, until: Option<Bound>) returns (at: int)
    requires !Aligned(since, until)
    ensures InWindow(at, since, until) != DayInWindow(DayOf(at), since, until)
  {
    var a, c := if since.Some? then since.value.at else 0, if since.Some? then since.value.LocalDate() * DAY else 0;
    var b, d := if until.Some? then until.value.at else 0, if until.Some? then until.value.LocalDate() * DAY else 0;
    if until.None? {
      // Between the two readings of the beginning.
      at := if a < c then a else c;
    } else if since.None? {
      at := if b < d then d - 1 else b - 1;
    } else if a < b && !(c <= a < d) {
      // One reading's first or last instant is outside the other.
      at := a;
    } else if a < b && !(c <= b - 1 < d) {
      at := b - 1;
    } else if !(a <= c < b) {
      at := c;
    } else {
      at := d - 1;
    }
    DaysAreInstants(at, since, until);
  }

  lemma {:induction false} ArrivesAsLeft(cfg: Cluster, db: Database, before: int, line: Line, c: Column, n: nat)
    requires Aligned(line.since, line.until)
    ensures c in {Bytes, Count, SucceededCount}
      ==> Arriving(cfg, db, before, line, c, n) == Leaving(cfg, db, before, line, c, n)
    ensures var lost := Leaving(cfg, db, before, line, Count, n) * (SECOND - 1);
      && lost >= 0
      && (c in {Running_, Waited}
          ==> -lost <= Arriving(cfg, db, before, line, c, n) - Leaving(cfg, db, before, line, c, n) <= lost)
  {
    if n > 0 {
      ArrivesAsLeft(cfg, db, before, line, c, n - 1);
      AlignedIff(line.since, line.until);
      assert Arrives(cfg, db, before, line, n - 1) <==> Leaves(cfg, db, before, line, n - 1);
    }
  }

  /** The seconds a prune may lose of running and of waiting are counted against the rows it takes out of the line. */
  ghost predicate Indistinguishable(cfg: Cluster, db: Database, db': Database, line: Line) {
    && (forall c :: c in {Bytes, Count, SucceededCount} ==> Total(cfg, db', line, c) == Total(cfg, db, line, c))
    && var pruned := RowTotal(cfg, db, line, Count) - RowTotal(cfg, db', line, Count);
       && pruned >= 0
       && forall c :: c in {Running_, Waited} ==>
            -pruned * (SECOND - 1) <= Total(cfg, db', line, c) - Total(cfg, db, line, c) <= pruned * (SECOND - 1)
  }

  lemma ColumnStays(cfg: Cluster, db: Database, now: int, line: Line, c: Column)
    requires Linked(db) && Aligned(line.since, line.until) && c in {Bytes, Count, SucceededCount}
    ensures Total(cfg, Prune(cfg, db, now), line, c) == Total(cfg, db, line, c)
  {
    PruneMoves(cfg, db, now, line, c);
    ArrivesAsLeft(cfg, db, now - cfg.retention, line, c, db.nextTransfer);
  }

  lemma SecondsLost(cfg: Cluster, db: Database, now: int, line: Line, c: Column)
    requires Linked(db) && Aligned(line.since, line.until) && c in {Running_, Waited}
    ensures var db', pruned := Prune(cfg, db, now),
      RowTotal(cfg, db, line, Count) - RowTotal(cfg, Prune(cfg, db, now), line, Count);
      && pruned >= 0
      && -pruned * (SECOND - 1) <= Total(cfg, db', line, c) - Total(cfg, db, line, c) <= pruned * (SECOND - 1)
  {
    PruneMoves(cfg, db, now, line, c);
    PruneMoves(cfg, db, now, line, Count);
    ArrivesAsLeft(cfg, db, now - cfg.retention, line, c, db.nextTransfer);
  }

  lemma PruneIndistinguishable(cfg: Cluster, db: Database, now: int, line: Line)
    requires Linked(db) && Aligned(line.since, line.until)
    ensures Indistinguishable(cfg, db, Prune(cfg, db, now), line)
  {
    forall c | c in {Bytes, Count, SucceededCount}
      ensures Total(cfg, Prune(cfg, db, now), line, c) == Total(cfg, db, line, c) {
      ColumnStays(cfg, db, now, line, c);
    }
    SecondsLost(cfg, db, now, line, Running_);
    SecondsLost(cfg, db, now, line, Waited);
  }

  predicate RollsInto(db: Database, before: int, i: nat, k: BucketKey) {
    Expired(db, i, before) && k == KeyFor(db.transfers[i], db.filesets[db.transfers[i].filesetId].storage)
  }

  lemma {:induction false} BucketsKept(db: Database, before: int, n: nat, k: BucketKey)
    ensures k in RolledUp(db, before, n)
       <==> k in db.stats || exists i: nat :: i < n && RollsInto(db, before, i, k)
  {
    if n > 0 {
      BucketsKept(db, before, n - 1, k);
      var last: nat := n - 1;
      assert RollsInto(db, before, last, k) ==> k in RolledUp(db, before, n);
    }
  }

  lemma LinesStay(cfg: Cluster, db: Database, now: int, line: Line)
    requires Linked(db) && Aligned(line.since, line.until) && Shown(cfg, db, line)
    ensures Shown(cfg, Prune(cfg, db, now), line)
  {
    var before, db' := now - cfg.retention, Prune(cfg, db, now);
    if i :| Reported(cfg, db, line, i) {
      if Expired(db, i, before) {
        var k := KeyFor(db.transfers[i], db.filesets[db.transfers[i].filesetId].storage);
        AlignedIff(line.since, line.until);
        assert RollsInto(db, before, i, k);
        BucketsKept(db, before, db.nextTransfer, k);
        assert k in db'.stats && BucketReported(cfg, line, k);
      } else {
        assert Reported(cfg, db', line, i);
      }
    } else {
      var k :| k in db.stats && BucketReported(cfg, line, k);
      BucketsKept(db, before, db.nextTransfer, k);
    }
  }

  lemma LinesWereThere(cfg: Cluster, db: Database, now: int, line: Line)
    requires Linked(db) && Aligned(line.since, line.until) && Shown(cfg, Prune(cfg, db, now), line)
    ensures Shown(cfg, db, line)
  {
    var before, db' := now - cfg.retention, Prune(cfg, db, now);
    if i :| Reported(cfg, db', line, i) {
      assert Reported(cfg, db, line, i);
    } else {
      var k :| k in db'.stats && BucketReported(cfg, line, k);
      BucketsKept(db, before, db.nextTransfer, k);
      if k !in db.stats {
        var i: nat :| i < db.nextTransfer && RollsInto(db, before, i, k);
        AlignedIff(line.since, line.until);
        assert Reported(cfg, db, line, i);
      }
    }
  }

  /** A report keeps its lines: no key appears or goes. */
  lemma PruneKeepsLines(cfg: Cluster, db: Database, now: int, line: Line)
    requires Linked(db) && Aligned(line.since, line.until)
    ensures Shown(cfg, Prune(cfg, db, now), line) <==> Shown(cfg, db, line)
  {
    if Shown(cfg, db, line) { LinesStay(cfg, db, now, line); }
    if Shown(cfg, Prune(cfg, db, now), line) { LinesWereThere(cfg, db, now, line); }
  }

  ghost function PruneAll(cfg: Cluster, db: Database, times: seq<int>): Database {
    if times == [] then db else Prune(cfg, PruneAll(cfg, db, times[..|times| - 1]), times[|times| - 1])
  }

  /** For every grouping and every window aligned to midnight UTC, any number of prunes leaves each line's bytes,
      transfers and successes as they were, and moves its running time and its waiting time by less than a second for
      each of its transfers pruned. */
  lemma {:induction false} PruningIsInvisible(cfg: Cluster, db: Database, times: seq<int>, line: Line)
    requires Linked(db) && Aligned(line.since, line.until)
    ensures Linked(PruneAll(cfg, db, times))
    ensures Indistinguishable(cfg, db, PruneAll(cfg, db, times), line)
    ensures Shown(cfg, PruneAll(cfg, db, times), line) <==> Shown(cfg, db, line)
  {
    if times != [] {
      PruningIsInvisible(cfg, db, times[..|times| - 1], line);
      PruneKeepsLines(cfg, PruneAll(cfg, db, times[..|times| - 1]), times[|times| - 1], line);
      PruneIndistinguishable(cfg, PruneAll(cfg, db, times[..|times| - 1]), times[|times| - 1], line);
    }
  }

  // ---- Where the report does notice ----

  ghost predicate NeverNoticed(cfg: Cluster, since: Option<Bound>, until: Option<Bound>) {
    forall db: Database, now: int, grouping: GroupBy, key: string, c: Column ::
      Linked(db) && c in {Bytes, Count, SucceededCount} ==>
        Total(cfg, Prune(cfg, db, now), Line(grouping, key, since, until), c)
          == Total(cfg, db, Line(grouping, key, since, until), c)
  }

  /** A database with one warm in it, submitted at `at` and finished. */
  function Lone(at: int): Database {
    var t := NewTransfer(Warm, "u", 1, None, Scheduling.Route("A", "B"), 0, false, at);
    EMPTY.(transfers := map[1 := t.(state := Succeeded)],
           filesets := map[1 := NewFileset("n", "u", "B", FS.Cached, 1, None, at)], nextTransfer := 2, nextFileset := 2)
  }

  lemma LoneShown(cfg: Cluster, at: int, since: Option<Bound>, until: Option<Bound>)
    ensures Total(cfg, Lone(at), Line(ByUser, "u", since, until), Count) == if InWindow(at, since, until) then 1 else 0
  {
    var db, line := Lone(at), Line(ByUser, "u", since, until);
    var one: nat, weight: int := 1, if InWindow(at, since, until) then 1 else 0;
    SumSet(map[], one, weight);
    assert RowWeights(cfg, db, line, Count) == map[][one := weight];
    assert BucketWeights(cfg, db.stats, line, Count) == map[];
  }

  lemma LoneMoves(cfg: Cluster, at: int, since: Option<Bound>, until: Option<Bound>)
    ensures var db, line := Lone(at), Line(ByUser, "u", since, until);
      && Leaving(cfg, db, at + 1, line, Count, 2) == (if InWindow(at, since, until) then 1 else 0)
      && Arriving(cfg, db, at + 1, line, Count, 2) == (if DayInWindow(DayOf(at), since, until) then 1 else 0)
  {
    var db, line := Lone(at), Line(ByUser, "u", since, until);
    assert Leaving(cfg, db, at + 1, line, Count, 1) == 0 == Arriving(cfg, db, at + 1, line, Count, 1);
  }

  /** Its warm counts by its instant before it is pruned, and by its date after. */
  lemma LoneCounts(cfg: Cluster, at: int, since: Option<Bound>, until: Option<Bound>)
    ensures Linked(Lone(at))
    ensures var line := Line(ByUser, "u", since, until);
      && Total(cfg, Lone(at), line, Count) == (if InWindow(at, since, until) then 1 else 0)
      && Total(cfg, Prune(cfg, Lone(at), at + cfg.retention + 1), line, Count)
           == (if DayInWindow(DayOf(at), since, until) then 1 else 0)
  {
    LoneShown(cfg, at, since, until);
    LoneMoves(cfg, at, since, until);
    PruneMoves(cfg, Lone(at), at + cfg.retention + 1, Line(ByUser, "u", since, until), Count);
  }

  /** Pruning is invisible in a window, whatever is in the tables, if and only if the window is aligned. */
  lemma NeverNoticedIff(cfg: Cluster, since: Option<Bound>, until: Option<Bound>)
    ensures NeverNoticed(cfg, since, until) <==> Aligned(since, until)
  {
    if Aligned(since, until) {
      forall db: Database, now: int, grouping: GroupBy, key: string, c: Column | Linked(db)
        && c in {Bytes, Count, SucceededCount}
        ensures Total(cfg, Prune(cfg, db, now), Line(grouping, key, since, until), c)
          == Total(cfg, db, Line(grouping, key, since, until), c)
      {
        PruneIndistinguishable(cfg, db, now, Line(grouping, key, since, until));
      }
    } else {
      var at := Misfit(since, until);
      LoneCounts(cfg, at, since, until);
    }
  }

  const HOUR := 3600 * SECOND

  /** A report since 2026-01-01T19:00:00-05:00, which is midnight UTC. A transfer of the UTC day before, at noon, is not
      in it until it is pruned; after that it is. */
  lemma WestOfMidnight(cfg: Cluster)
    ensures var newYear := 20454;
      var since := Some(Bound((newYear + 1) * DAY, -5 * HOUR));
      var db, line := Lone(newYear * DAY + 12 * HOUR), Line(ByUser, "u", since, None);
      && since.value.LocalDate() == newYear
      && !Aligned(since, None)
      && Total(cfg, db, line, Count) == 0
      && Total(cfg, Prune(cfg, db, newYear * DAY + 12 * HOUR + cfg.retention + 1), line, Count) == 1
  {
    LoneCounts(cfg, 20454 * DAY + 12 * HOUR, Some(Bound(20455 * DAY, -5 * HOUR)), None);
  }

  /** The number of waits a mean is taken over grows by exactly the pruned transfers that never started, even in an
      aligned window: a bucket does not keep them apart. */
  lemma {:induction false} WaitsCountedForNothing(cfg: Cluster, db: Database, before: int, line: Line, n: nat)
    requires Aligned(line.since, line.until)
    ensures Arriving(cfg, db, before, line, CountedWaits, n) - Leaving(cfg, db, before, line, CountedWaits, n)
         == |NeverStarted(cfg, db, before, line, n)|
  {
    if n > 0 {
      WaitsCountedForNothing(cfg, db, before, line, n - 1);
      AlignedIff(line.since, line.until);
      assert Arrives(cfg, db, before, line, n - 1) <==> Leaves(cfg, db, before, line, n - 1);
      NeverStartedNext(cfg, db, before, line, n - 1);
    } else {
      assert NeverStarted(cfg, db, before, line, 0) == {};
    }
  }

  lemma NeverStartedNext(cfg: Cluster, db: Database, before: int, line: Line, n: nat)
    ensures |NeverStarted(cfg, db, before, line, n + 1)| == |NeverStarted(cfg, db, before, line, n)|
         + (if Leaves(cfg, db, before, line, n) && db.transfers[n].startedAt.None? then 1 else 0)
  {
    var earlier := NeverStarted(cfg, db, before, line, n);
    assert NeverStarted(cfg, db, before, line, n + 1)
        == if Leaves(cfg, db, before, line, n) && db.transfers[n].startedAt.None? then earlier + {n} else earlier;
  }

  ghost function NeverStarted(cfg: Cluster, db: Database, before: int, line: Line, n: nat): set<nat> {
    set i | i in db.transfers && i < n && Leaves(cfg, db, before, line, i) && db.transfers[i].startedAt.None?
  }

  lemma MeanWaitDrifts(cfg: Cluster, db: Database, now: int, line: Line)
    requires Linked(db) && Aligned(line.since, line.until)
    ensures Total(cfg, Prune(cfg, db, now), line, CountedWaits)
         == Total(cfg, db, line, CountedWaits) + |NeverStarted(cfg, db, now - cfg.retention, line, db.nextTransfer)|
  {
    PruneMoves(cfg, db, now, line, CountedWaits);
    WaitsCountedForNothing(cfg, db, now - cfg.retention, line, db.nextTransfer);
  }
}
