/** A reservation covers what its warms bring, for as long as nobody shrinks it. */
module CoverageRuns {
  import opened Options
  import opened Transfers
  import opened Tables
  import opened Releases
  import opened Events
  import opened Reconciling
  import opened Submissions
  import opened Runs
  import opened FilesetRuns
  import SchedulerLoop

  /** Every warm's measured size is within the reservation of the fileset it fills. */
  ghost predicate Covered(db: Database) {
    forall i :: i in db.transfers && db.transfers[i].kind == Warm && db.transfers[i].filesetId in db.filesets ==>
      db.transfers[i].bytesTotal <= db.filesets[db.transfers[i].filesetId].allocatedBytes
  }

  /** The new size leaves room for every warm of the fileset: what a caller would check before a resize. */
  ghost predicate RoomForWarms(db: Database, id: nat, size: int) {
    forall i ::
      i in db.transfers && db.transfers[i].kind == Warm && db.transfers[i].filesetId == id
      ==> db.transfers[i].bytesTotal <= size
  }

  /** No row is added but a release or a flush. */
  ghost predicate AddsNoWarm(db: Database, db': Database) {
    forall i :: i in db'.transfers && i !in db.transfers ==> db'.transfers[i].kind != Warm
  }

  lemma ReconcileAddsNoWarm(cfg: Cluster, db: Database, id: nat, task: TaskAnswer, now: int)
    requires Sound(cfg, db) && id in db.transfers && InFlight(db.transfers[id].state)
    ensures AddsNoWarm(db, ReconcileOne(cfg, db, id, task, now).0)
  {
    RequeueNeverFires(cfg, db, id, task, now);
    var e := TaskEvent(cfg, id, db.transfers[id], task, now);
    if e.Some? { EventAddsRelease(cfg, db, e.value, now, None); }
  }

  lemma ReleaseAddsNoWarm(db: Database, owner: string, storage: string, name: string, discard: bool, now: int,
                          answer: DeleteAnswer)
    ensures AddsNoWarm(db, ReleaseFileset(db, owner, storage, name, discard, now, answer).0)
  {
    var found := LiveFileset(db.filesets, owner, storage, name);
    if found.Some? { ReleaseAdds(db, found.value, now, answer); }
  }

  lemma FlushAddsNoWarm(cfg: Cluster, db: Database, owner: string, flush: FlushPlan, now: int, charged: bool)
    ensures AddsNoWarm(db, SubmitFlush(cfg, db, owner, flush, now, charged).0)
  {
  }

  lemma OnlyWarmsAddWarms(cfg: Cluster, db: Database, a: Action)
    requires Sound(cfg, db) && !a.DoWarm?
    ensures AddsNoWarm(db, Step(cfg, db, a).0)
  {
    match a
    case DoEvent(event, now, store) => EventAddsRelease(cfg, db, event, now, store);
    case DoReconcile(id, task, now) =>
      if id in db.transfers && InFlight(db.transfers[id].state) { ReconcileAddsNoWarm(cfg, db, id, task, now); }
    case DoFlush(owner, flush, now, charged) => FlushAddsNoWarm(cfg, db, owner, flush, now, charged);
    case DoRelease(owner, storage, name, discard, now, deleted) =>
      ReleaseAddsNoWarm(db, owner, storage, name, discard, now, deleted);
    case DoSchedule(now, answers) =>
      StartMovesTable(cfg, db.transfers, SchedulerLoop.Planned(cfg, db, now).plan, answers);
    case DoCreate(_, _, _, _, _, _) => FilesetCallKeepsTransfers(cfg, db, a);
    case DoResize(_, _, _, _) => FilesetCallKeepsTransfers(cfg, db, a);
    case _ =>
  }

  lemma FilesetCallKeepsTransfers(cfg: Cluster, db: Database, a: Action)
    requires a.DoCreate? || a.DoResize?
    ensures Step(cfg, db, a).0.transfers == db.transfers
  {
  }

  lemma EventAddsRelease(cfg: Cluster, db: Database, e: Event, now: int, store: Option<DeleteAnswer>)
    ensures AddsNoWarm(db, ApplyEvent(cfg, db, e, now, store).0)
  {
    if Objection(cfg, db, e).None? && store.Some? {
      ReleaseAdds(Accepted(cfg, db, e, now), db.transfers[e.transferId].filesetId, now, store.value);
    }
  }

  /** The reservations a step leaves are no smaller, unless it is a resize. */
  lemma ReservationsStay(cfg: Cluster, db: Database, a: Action, i: nat)
    requires Sound(cfg, db) && i in db.filesets && !a.DoResize?
    ensures i in Step(cfg, db, a).0.filesets
      && db.filesets[i].allocatedBytes <= Step(cfg, db, a).0.filesets[i].allocatedBytes
  {
    if a.DoCreate? {
      CreateReserves(cfg, db, a);
    } else if a.DoWarm? {
      if WarmAdmitted(cfg, db, a) { WarmReserves(cfg, db, a); } else { WarmRefused(cfg, db, a); }
    } else {
      StepPreserves(cfg, db, a);
    }
  }

  lemma NewWarmCovered(cfg: Cluster, db: Database, a: Action)
    requires a.DoWarm? && cfg.Valid() && Possible(cfg, a) && Sound(cfg, db) && WarmAdmitted(cfg, db, a)
    ensures var db' := Step(cfg, db, a).0;
      && db.nextTransfer in db'.transfers && db'.transfers[db.nextTransfer].filesetId in db'.filesets
      && db'.transfers == db.transfers[db.nextTransfer := db'.transfers[db.nextTransfer]]
      && db'.transfers[db.nextTransfer].bytesTotal
           <= db'.filesets[db'.transfers[db.nextTransfer].filesetId].allocatedBytes
  {
    PlanCoversSource(cfg, a.plan);
    WarmReserves(cfg, db, a);
    WarmQueues(cfg, db, a);
  }

  lemma UnshrunkStaysCovered(cfg: Cluster, db: Database, a: Action)
    requires cfg.Valid() && Possible(cfg, a) && Sound(cfg, db) && Covered(db) && !a.DoResize?
    ensures Covered(Step(cfg, db, a).0)
  {
    var db' := Step(cfg, db, a).0;
    StepMovesTable(cfg, db, a);
    forall i | i in db'.transfers && db'.transfers[i].kind == Warm && db'.transfers[i].filesetId in db'.filesets
      ensures db'.transfers[i].bytesTotal <= db'.filesets[db'.transfers[i].filesetId].allocatedBytes
    {
      if i in db.transfers {
        assert RowMoves(cfg, db.transfers[i], db'.transfers[i], a.DoSchedule?);
        ReservationsStay(cfg, db, a, db.transfers[i].filesetId);
      } else if a.DoWarm? {
        if WarmAdmitted(cfg, db, a) { NewWarmCovered(cfg, db, a); } else { WarmRefused(cfg, db, a); }
      } else {
        OnlyWarmsAddWarms(cfg, db, a);
      }
    }
  }

  /** A resize that goes through keeps every warm covered if and only if the new size has room for the fileset's warms.
      (The check the code makes is against the bytes used so far, which a warm still running has not brought yet.) */
  lemma ResizeStaysCoveredIff(cfg: Cluster, db: Database, a: Action)
    requires Sound(cfg, db) && Covered(db) && a.DoResize? && Step(cfg, db, a).1 == Done
    ensures Covered(Step(cfg, db, a).0) <==> RoomForWarms(db, a.id, a.size)
  {
    ResizeReserves(cfg, db, a);
    var db' := Step(cfg, db, a).0;
    if Covered(db') {
      forall i | i in db.transfers && db.transfers[i].kind == Warm && db.transfers[i].filesetId == a.id
        ensures db.transfers[i].bytesTotal <= a.size
      {
        assert i in db'.transfers;
      }
    }
  }

  /** No resize of the run leaves less than a warm of its fileset was measured at. */
  ghost predicate NeverCutsShort(cfg: Cluster, db: Database, run: seq<Action>) {
    forall k :: 0 <= k < |run| && run[k].DoResize? ==> RoomForWarms(After(cfg, db, run[..k]), run[k].id, run[k].size)
  }

  lemma {:induction false} WarmsStayCovered(cfg: Cluster, run: seq<Action>)
    requires cfg.Valid() && AllPossible(cfg, run) && NeverCutsShort(cfg, EMPTY, run)
    ensures Covered(After(cfg, EMPTY, run))
  {
    if run != [] {
      var n := |run| - 1;
      forall k | 0 <= k < n && run[k].DoResize?
        ensures RoomForWarms(After(cfg, EMPTY, run[..n][..k]), run[k].id, run[k].size) {
        assert run[..n][..k] == run[..k];
      }
      WarmsStayCovered(cfg, run[..n]);
      EmptyIsSound(cfg);
      RunsAreSound(cfg, EMPTY, run[..n]);
      var db := After(cfg, EMPTY, run[..n]);
      if !run[n].DoResize? {
        UnshrunkStaysCovered(cfg, db, run[n]);
      } else if Step(cfg, db, run[n]).1 == Done {
        ResizeStaysCoveredIff(cfg, db, run[n]);
      } else {
        ResizeReserves(cfg, db, run[n]);
      }
    }
  }

  lemma FinishRecords(cfg: Cluster, db: Database, e: Event, now: int, store: Option<DeleteAnswer>)
    requires Sound(cfg, db) && ApplyEvent(cfg, db, e, now, store).1 == Done
    requires e.kind == Finished && db.transfers[e.transferId].kind == Warm
    ensures var t, f := db.transfers[e.transferId],
      ApplyEvent(cfg, db, e, now, store).0.filesets[db.transfers[e.transferId].filesetId];
      && f.usedBytes <= t.bytesTotal
      && f.allocatedBytes == db.filesets[t.filesetId].allocatedBytes
  {
  }

  /** Across refreshes and retries, whatever a warm's finish event reports, the use it records
      is within the reservation. */
  lemma RecordedUseIsReserved(cfg: Cluster, run: seq<Action>, e: Event, now: int, store: Option<DeleteAnswer>)
    requires cfg.Valid() && AllPossible(cfg, run) && NeverCutsShort(cfg, EMPTY, run)
    requires ApplyEvent(cfg, After(cfg, EMPTY, run), e, now, store).1 == Done
    requires e.kind == Finished && After(cfg, EMPTY, run).transfers[e.transferId].kind == Warm
    ensures var db := After(cfg, EMPTY, run);
      var f := ApplyEvent(cfg, db, e, now, store).0.filesets[db.transfers[e.transferId].filesetId];
      f.usedBytes <= f.allocatedBytes
  {
    WarmsStayCovered(cfg, run);
    EmptyIsSound(cfg);
    RunsAreSound(cfg, EMPTY, run);
    FinishRecords(cfg, After(cfg, EMPTY, run), e, now, store);
  }
}
