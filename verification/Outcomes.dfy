/** What the calls about filesets and old rows leave behind, told from their arguments and the daemons' answers. */
module Outcomes {
  import opened Options
  import opened Transfers
  import opened Tables
  import opened Releases
  import opened Cancels
  import opened Reservations
  import opened Runs
  import opened Retention
  import FS = Filesets

  // ---- Releases ----

  /** A release by name is refused where there is no such fileset, where it is an output one that is not to be
      discarded, and where it is not at rest; it then changes nothing. */
  lemma ReleaseAcceptedIff(db: Database, owner: string, storage: string, name: string, discard: bool, now: int,
                           answer: DeleteAnswer)
    ensures var r, found := ReleaseFileset(db, owner, storage, name, discard, now, answer),
      LiveFileset(db.filesets, owner, storage, name);
      && (found.None? <==> r.1 == Raised(NotFound))
      && (found.Some? && db.filesets[found.value].kind == FS.Output && !discard <==> r.1 == Raised(FlushTargetRequired))
      && (r.1 in {Done, Raised(DaemonRefused), Raised(Interrupted)}
          <==> && found.Some? && (db.filesets[found.value].kind == FS.Cached || discard)
               && db.filesets[found.value].state in {FS.Ready, FS.Failed})
      && (r.1 !in {Done, Raised(DaemonRefused), Raised(Interrupted)} ==> r.0 == db)
  {
  }

  /** The row of a release as it stands when the daemon has answered, or not. */
  ghost predicate ReleaseRow(t: Transfer, f: Fileset, filesetId: nat, now: int, answer: DeleteAnswer) {
    && t.kind == Release && t.user == f.owner && t.filesetId == filesetId
    && t.route.source == f.storage && t.route.target == f.storage && t.bytesTotal == 0 && t.bytesDone == 0
    && t.submittedAt == now && t.startedAt == Some(now)
    && match answer
       case Deleted => t.state == Succeeded && t.finishedAt == Some(now) && t.errorCode == None
       case DeleteRefused(code, detail) =>
         t.state == Failed && t.finishedAt == Some(now) && t.errorCode == Some(code) && t.errorDetail == detail
       case NoAnswer => t.state == Running && t.finishedAt == None && t.errorCode == None
  }

  /** One that is accepted leaves a row of its own and writes its fileset: RELEASED where the delete is confirmed,
      FAILED where it is refused, RELEASING where there is no answer, and otherwise as it was. */
  lemma ReleaseLeaves(db: Database, owner: string, storage: string, name: string, discard: bool, now: int,
                      answer: DeleteAnswer)
    requires ReleaseFileset(db, owner, storage, name, discard, now, answer).0 != db
    ensures var r, found := ReleaseFileset(db, owner, storage, name, discard, now, answer),
      LiveFileset(db.filesets, owner, storage, name);
      && found.Some? && db.nextTransfer in r.0.transfers
      && var i, f := found.value, db.filesets[found.value];
         && ReleaseRow(r.0.transfers[db.nextTransfer], f, i, now, answer)
         && r.0 == db.(transfers := db.transfers[db.nextTransfer := r.0.transfers[db.nextTransfer]],
                       nextTransfer := db.nextTransfer + 1,
                       filesets := db.filesets[i := r.0.filesets[i]])
         && match answer
            case Deleted =>
              && r.1 == Done
              && r.0.filesets[i]
                 == f.(state := FS.Released, releasedAt := Some(now), lastTransfer := Some(db.nextTransfer))
            case DeleteRefused(_, _) => r.1 == Raised(DaemonRefused) && r.0.filesets[i] == f.(state := FS.Failed)
            case NoAnswer => r.1 == Raised(Interrupted) && r.0.filesets[i] == f.(state := FS.Releasing)
  {
  }

  // ---- Creates ----

  /** A create that is let in leaves one new fileset, empty, of that name and size: READY in the place its daemon made,
      gone again where it refused, and still CREATING where it did not answer. */
  lemma CreateLeaves(cfg: Cluster, db: Database, owner: string, storage: string, name: string, size: int, now: int,
                     answer: CreateAnswer)
    requires Linked(db) && CreateObjection(cfg, db, owner, storage, name, size).None?
    ensures var r, i := CreateOutput(cfg, db, owner, storage, name, size, now, answer), db.nextFileset;
      && r.0 == db.(filesets := r.0.filesets, nextFileset := i + 1)
      && (answer.CreateRefused? ==> r.1 == Raised(DaemonRefused) && r.0.filesets == db.filesets)
      && (!answer.CreateRefused? ==>
           && i !in db.filesets && i in r.0.filesets && r.0.filesets == db.filesets[i := r.0.filesets[i]]
           && var f := r.0.filesets[i];
              && f.owner == owner && f.storage == storage && f.name == name && f.kind == FS.Output && f.source == None
              && f.allocatedBytes == size && f.usedBytes == 0 && !f.overAllocation && f.createdAt == now
              && (answer.Created? ==> r.1 == Done && f.state == FS.Ready && f.path == answer.path)
              && (answer.CreateUnanswered? ==> r.1 == Raised(Interrupted) && f.state == FS.Creating && f.path == ""))
  {
    var reserved := db.filesets[db.nextFileset := NewFileset(name, owner, storage, FS.Output, size, None, now)];
    assert reserved - {db.nextFileset} == db.filesets;
  }

  // ---- Cancels ----

  /** A cancel that goes through leaves its fileset, while that is live, FAILED and says which transfer did it. */
  lemma CancelLeaves(cfg: Cluster, db: Database, id: nat, now: int)
    requires id in db.transfers && db.transfers[id].state in {Submitted, Assigned, Running}
    requires db.transfers[id].filesetId in db.filesets
    ensures var r, t := Cancel(cfg, db, id, now), db.transfers[id];
      && r.1 == Done && id in r.0.transfers
      && r.0 == db.(transfers := db.transfers[id := r.0.transfers[id]], filesets := r.0.filesets,
                    accounts := r.0.accounts)
      && r.0.transfers[id] == t.(state := Cancelled, finishedAt := Some(now), errorCode := Some("cancelled"))
      && var f := db.filesets[t.filesetId];
         r.0.filesets
         == db.filesets[t.filesetId := if f.state == FS.Released then f
                                       else f.(state := FS.Failed, lastTransfer := Some(id))]
  {
    if !Live(db.filesets[db.transfers[id].filesetId]) {
      assert db.filesets[db.transfers[id].filesetId := db.filesets[db.transfers[id].filesetId]] == db.filesets;
    }
  }

  // ---- Pruning ----

  /** A row is pruned if and only if it has ended and was submitted longer ago than rows are kept; the others stay as
      they are, and so does every table but the statistics. */
  lemma PrunedIff(cfg: Cluster, db: Database, now: int, i: nat)
    requires Linked(db) && i in db.transfers
    ensures var after := Step(cfg, db, DoPrune(now)).0;
      && (i !in after.transfers
          <==> db.transfers[i].state in {Succeeded, Failed, Cancelled}
               && now - db.transfers[i].submittedAt > cfg.retention)
      && (i in after.transfers ==> after.transfers[i] == db.transfers[i])
      && after == db.(transfers := after.transfers, stats := after.stats) && after.transfers.Keys <= db.transfers.Keys
  {
  }

  /** The row is counted in the bucket: of its user, storage, route and kind, and of the UTC day it was submitted on. */
  predicate CountedIn(db: Database, i: nat, k: BucketKey) {
    && i in db.transfers && db.transfers[i].filesetId in db.filesets
    && db.transfers[i].user == k.user && db.transfers[i].route == k.route && db.transfers[i].kind == k.kind
    && db.filesets[db.transfers[i].filesetId].storage == k.storage
    && k.day * 86400000000 <= db.transfers[i].submittedAt < (k.day + 1) * 86400000000
  }

  lemma CountedIff(db: Database, i: nat, k: BucketKey)
    requires i in db.transfers && db.transfers[i].filesetId in db.filesets
    ensures CountedIn(db, i, k) <==> KeyFor(db.transfers[i], db.filesets[db.transfers[i].filesetId].storage) == k
  {
    DayIff(db.transfers[i].submittedAt, k.day);
  }

  lemma DayIff(at: int, day: int)
    ensures DayOf(at) == day <==> day * 86400000000 <= at < (day + 1) * 86400000000
  {
  }

  /** Those among the first n rows to be pruned that are counted in the bucket. */
  function RolledInto(db: Database, before: int, n: nat, k: BucketKey): set<nat> {
    set i | i in db.transfers && i < n && Expired(db, i, before) && CountedIn(db, i, k)
  }

  lemma OneMoreRolled(db: Database, before: int, n: nat, k: BucketKey)
    ensures |RolledInto(db, before, n + 1, k)|
         == |RolledInto(db, before, n, k)| + (if Expired(db, n, before) && CountedIn(db, n, k) then 1 else 0)
  {
    var earlier := RolledInto(db, before, n, k);
    assert RolledInto(db, before, n + 1, k)
      == if Expired(db, n, before) && CountedIn(db, n, k) then earlier + {n} else earlier;
  }

  lemma {:induction false} BucketsCount(db: Database, before: int, n: nat, k: BucketKey)
    ensures BucketAt(RolledUp(db, before, n), k).transfers
         == BucketAt(db.stats, k).transfers + |RolledInto(db, before, n, k)|
  {
    if n > 0 {
      BucketsCount(db, before, n - 1, k);
      OneMoreRolled(db, before, n - 1, k);
      if Expired(db, n - 1, before) { CountedIff(db, n - 1, k); }
    } else {
      assert RolledInto(db, before, 0, k) == {};
    }
  }

  /** Every row that is pruned is counted, once, in its bucket, and in no other. */
  lemma PrunedAreCounted(cfg: Cluster, db: Database, now: int, k: BucketKey)
    requires Linked(db)
    ensures var after := Step(cfg, db, DoPrune(now)).0;
      BucketAt(after.stats, k).transfers
      == BucketAt(db.stats, k).transfers
         + |set i | i in db.transfers && i !in after.transfers && CountedIn(db, i, k)|
  {
    var after := Prune(cfg, db, now);
    BucketsCount(db, now - cfg.retention, db.nextTransfer, k);
    assert (set i | i in db.transfers && i !in after.transfers && CountedIn(db, i, k))
      == RolledInto(db, now - cfg.retention, db.nextTransfer, k);
  }
}
