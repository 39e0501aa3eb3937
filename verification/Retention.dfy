/** Pruning old transfers into buckets by day (src/stashd/services/retention.py). */
module Retention {
  import opened Transfers
  import opened Tables

  const DAY := 86400000000
  const SECOND := 1000000

  /** The UTC date an instant falls on. */
  function DayOf(at: int): (day: int)
    ensures day * DAY <= at < (day + 1) * DAY
  {
    at / DAY
  }

  /** int(delta.total_seconds()) truncates toward zero. */
  function WholeSeconds(delta: int): int {
    if delta >= 0 then delta / SECOND else -((-delta) / SECOND)
  }

  function KeyFor(t: Transfer, storage: string): BucketKey {
    BucketKey(DayOf(t.submittedAt), t.user, storage, t.route, t.kind)
  }

  const NO_TRANSFERS := Bucket(0, 0, 0, 0, 0)

  function BucketAt(stats: map<BucketKey, Bucket>, key: BucketKey): Bucket {
    if key in stats then stats[key] else NO_TRANSFERS
  }

  function Added(b: Bucket, t: Transfer): Bucket {
    Bucket(
      b.transfers + 1,
      b.succeeded + (if t.state == Succeeded then 1 else 0),
      b.bytes + t.bytesDone,
      b.waitSeconds + (if t.startedAt.Some? then WholeSeconds(t.startedAt.value - t.submittedAt) else 0),
      b.runSeconds + (if t.startedAt.Some? && t.finishedAt.Some?
                      then WholeSeconds(t.finishedAt.value - t.startedAt.value) else 0))
  }

  function RollUp(stats: map<BucketKey, Bucket>, t: Transfer, storage: string): map<BucketKey, Bucket> {
    var key := KeyFor(t, storage);
    stats[key := Added(BucketAt(stats, key), t)]
  }

  /** The rows past their retention: the join with the fileset gives the storage each is counted on. */
  predicate Expired(db: Database, i: nat, before: int) {
    && i in db.transfers
    && IsTerminal(db.transfers[i].state)
    && db.transfers[i].submittedAt < before
    && db.transfers[i].filesetId in db.filesets
  }

  function ExpiredIds(db: Database, before: int): set<nat> {
    set i | i in db.transfers && Expired(db, i, before)
  }

  /** The buckets once the expired rows with an id below `n` are in them. */
  function RolledUp(db: Database, before: int, n: nat): map<BucketKey, Bucket> {
    if n == 0 then db.stats
    else
      var stats := RolledUp(db, before, n - 1);
      if Expired(db, n - 1, before)
      then RollUp(stats, db.transfers[n - 1], db.filesets[db.transfers[n - 1].filesetId].storage)
      else stats
  }

  /** prune, less the audit events. */
  function Prune(cfg: Cluster, db: Database, now: int): Database {
    db.(stats := RolledUp(db, now - cfg.retention, db.nextTransfer),
        transfers := map i | i in db.transfers && !Expired(db, i, now - cfg.retention) :: db.transfers[i])
  }
}
