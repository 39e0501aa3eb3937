/** Every service call as one step on the database, and runs of such steps. */
module Runs {
  import opened Options
  import opened Transfers
  import opened Scheduling
  import opened Tables
  import opened Releases
  import opened Events
  import opened Cancels
  import opened Reconciling
  import opened Submissions
  import opened Reservations
  import opened SchedulerLoop
  import opened Retention

  /** A call with its arguments, the time, and whatever the daemons answer. */
  datatype Action =
    | DoCreate(owner: string, storage: string, name: string, size: int, now: int, created: CreateAnswer)
    | DoWarm(owner: string, plan: WarmPlan, now: int, prepared: Option<string>)
    | DoFlush(owner: string, flush: FlushPlan, now: int, charged: bool)
    | DoSchedule(now: int, answers: map<nat, Handover>)
    | DoEvent(event: Event, now: int, store: Option<DeleteAnswer>)
    | DoReconcile(id: nat, task: TaskAnswer, now: int)
    | DoCancel(id: nat, now: int)
    | DoRelease(owner: string, storage: string, name: string, discard: bool, now: int, deleted: DeleteAnswer)
    | DoResize(id: nat, size: int, force: bool, quotaSet: bool)
    | DoMeasure(id: nat, used: nat, fileCount: int, now: int)
    | DoDrain(storage: string, drained: bool)
    | DoPrune(now: int)

  /** A warm's plan comes from a preflight, and an event's sequence number starts at one. */
  ghost predicate Possible(cfg: Cluster, a: Action) {
    && (a.DoWarm? ==> Preflighted(cfg, a.plan))
    && (a.DoEvent? ==> a.event.sequence >= 1)
  }

  ghost function Step(cfg: Cluster, db: Database, a: Action): (Database, Verdict) {
    match a
    case DoCreate(owner, storage, name, size, now, created) =>
      CreateOutput(cfg, db, owner, storage, name, size, now, created)
    case DoWarm(owner, plan, now, prepared) => SubmitWarm(cfg, db, owner, plan, now, prepared)
    case DoFlush(owner, flush, now, charged) => SubmitFlush(cfg, db, owner, flush, now, charged)
    case DoSchedule(now, answers) => (ScheduleOnce(cfg, db, now, answers), Done)
    case DoEvent(event, now, store) => ApplyEvent(cfg, db, event, now, store)
    case DoReconcile(id, task, now) =>
      if id in db.transfers && InFlight(db.transfers[id].state) then ReconcileOne(cfg, db, id, task, now)
      else (db, Ignored)
    case DoCancel(id, now) => Cancel(cfg, db, id, now)
    case DoRelease(owner, storage, name, discard, now, deleted) =>
      ReleaseFileset(db, owner, storage, name, discard, now, deleted)
    case DoResize(id, size, force, quotaSet) => Resize(cfg, db, id, size, force, quotaSet)
    case DoMeasure(id, used, fileCount, now) => Measure(db, id, used, fileCount, now)
    case DoDrain(storage, drained) => SetDrained(cfg, db, storage, drained)
    case DoPrune(now) => (Prune(cfg, db, now), Done)
  }

  ghost predicate AllPossible(cfg: Cluster, run: seq<Action>) {
    forall k :: 0 <= k < |run| ==> Possible(cfg, run[k])
  }

  /** Where a run leads. */
  ghost function After(cfg: Cluster, db: Database, run: seq<Action>): Database {
    if run == [] then db else Step(cfg, After(cfg, db, run[..|run| - 1]), run[|run| - 1]).0
  }

  lemma {:induction false} AfterConcat(cfg: Cluster, db: Database, first: seq<Action>, second: seq<Action>)
    ensures After(cfg, db, first + second) == After(cfg, After(cfg, db, first), second)
  {
    if second == [] {
      assert first + second == first;
    } else {
      AfterConcat(cfg, db, first, second[..|second| - 1]);
      assert (first + second)[..|first + second| - 1] == first + second[..|second| - 1];
    }
  }

  // ---- The invariant of the tables ----

  /** Ids below the sequences, every transfer with its fileset, and live names unique. */
  ghost predicate Linked(db: Database) {
    && (forall i :: i in db.transfers ==> i < db.nextTransfer && db.transfers[i].filesetId in db.filesets)
    && (forall i :: i in db.filesets ==> i < db.nextFileset)
    && UniqueNames(db.filesets)
  }

  /** A warm or flush that a daemon has can always be asked about; attempts are within the retry budget;
      progress is within the total. */
  ghost predicate RowOk(cfg: Cluster, t: Transfer) {
    && (t.kind.MovesData() && InFlight(t.state) ==> t.taskId.Some?)
    && (t.kind == Release ==> t.state != Assigned)
    && 1 <= t.attempt <= cfg.retryCount + 1
    && t.bytesDone <= t.bytesTotal
    && t.lastSequence >= 0
  }

  ghost predicate RowsOk(cfg: Cluster, db: Database) {
    forall i :: i in db.transfers ==> RowOk(cfg, db.transfers[i])
  }

  ghost predicate Sound(cfg: Cluster, db: Database) {
    Linked(db) && RowsOk(cfg, db)
  }

  // ---- What a step may do to one transfer row ----

  ghost predicate SameJob(t: Transfer, u: Transfer) {
    && u.kind == t.kind && u.user == t.user && u.filesetId == t.filesetId && u.peerRef == t.peerRef
    && u.route == t.route && u.bytesTotal == t.bytesTotal && u.releaseAfter == t.releaseAfter
    && u.submittedAt == t.submittedAt
  }

  /** The row goes on within its attempt: its state and rank stay, or the rank rises; only a handover assigns. */
  ghost predicate GoesOn(t: Transfer, u: Transfer) {
    && u.attempt == t.attempt
    && (u.state != t.state ==> Legal(t.state, u.state) && Rank(u.state) > Rank(t.state) && u.state != Assigned)
    && (u.taskId == t.taskId)
  }

  ghost predicate TakesUp(t: Transfer, u: Transfer) {
    t.kind.MovesData() && t.state == Submitted && u.state == Assigned && u.attempt == t.attempt && u.taskId.Some?
  }

  ghost predicate StartsOver(cfg: Cluster, t: Transfer, u: Transfer) {
    t.attempt <= cfg.retryCount && u.attempt == t.attempt + 1 && u.state == Submitted && u.taskId.None?
  }

  ghost predicate RowMoves(cfg: Cluster, t: Transfer, u: Transfer, scheduling: bool) {
    && SameJob(t, u)
    && u.lastSequence >= t.lastSequence
    && (t.bytesDone <= t.bytesTotal ==> u.bytesDone <= u.bytesTotal)
    && (GoesOn(t, u) || (scheduling && TakesUp(t, u)) || StartsOver(cfg, t, u))
  }

  /** A row that a step adds: a job waiting for its first attempt, or a release. */
  ghost predicate NewRow(u: Transfer) {
    && u.attempt == 1 && u.lastSequence == 0 && u.bytesDone == 0 && u.taskId.None?
    && (u.kind.MovesData() ==> u.state == Submitted && u.startedAt.None?)
    && (u.kind == Release ==> u.state in {Running, Succeeded, Failed})
  }

  /** The transfer table before and after a step. */
  ghost predicate TableMoves(cfg: Cluster, db: Database, db': Database, scheduling: bool) {
    && db.nextTransfer <= db'.nextTransfer
    && (forall i :: i in db.transfers ==>
         (i in db'.transfers && RowMoves(cfg, db.transfers[i], db'.transfers[i], scheduling))
         || (i !in db'.transfers && IsTerminal(db.transfers[i].state)))
    && (forall i :: i in db'.transfers && i !in db.transfers ==>
         db.nextTransfer <= i < db'.nextTransfer && NewRow(db'.transfers[i])
           && db'.transfers[i].filesetId in db'.filesets)
  }

  /** A release leaves the rows alone and adds at most one of its own. */
  ghost predicate AddsRelease(db: Database, db': Database) {
    || (db'.transfers == db.transfers && db'.nextTransfer == db.nextTransfer)
    || (&& db'.nextTransfer == db.nextTransfer + 1
        && db.nextTransfer in db'.transfers
        && db'.transfers == db.transfers[db.nextTransfer := db'.transfers[db.nextTransfer]]
        && db'.transfers[db.nextTransfer].kind == Release
        && NewRow(db'.transfers[db.nextTransfer])
        && db'.transfers[db.nextTransfer].filesetId in db'.filesets)
  }

  lemma ReleaseAdds(db: Database, id: nat, now: int, answer: DeleteAnswer)
    requires id in db.filesets
    ensures AddsRelease(db, PerformRelease(db, id, now, answer).0)
  {
  }

  lemma StaysPut(cfg: Cluster, t: Transfer)
    ensures RowMoves(cfg, t, t, false)
  {
  }

  lemma EventMovesRow(cfg: Cluster, db: Database, e: Event, now: int)
    requires Objection(cfg, db, e).None? && RowsOk(cfg, db)
    ensures RowMoves(cfg, db.transfers[e.transferId], Accepted(cfg, db, e, now).transfers[e.transferId], false)
  {
  }

  lemma EventMovesTable(cfg: Cluster, db: Database, e: Event, now: int, store: Option<DeleteAnswer>)
    requires Sound(cfg, db)
    ensures TableMoves(cfg, db, ApplyEvent(cfg, db, e, now, store).0, false)
  {
    if Objection(cfg, db, e).None? {
      var accepted := Accepted(cfg, db, e, now);
      EventMovesRow(cfg, db, e, now);
      assert accepted.transfers == db.transfers[e.transferId := accepted.transfers[e.transferId]];
      if store.Some? { ReleaseAdds(accepted, db.transfers[e.transferId].filesetId, now, store.value); }
      var after := ApplyEvent(cfg, db, e, now, store).0;
      assert AddsRelease(accepted, after);
      RowsPut(cfg, db, accepted, after, e.transferId);
    }
  }

  /** One row rewritten and perhaps a release added. */
  lemma RowsPut(cfg: Cluster, db: Database, put: Database, db': Database, i: nat)
    requires Linked(db) && i in db.transfers && i in put.transfers && put.nextTransfer == db.nextTransfer
    requires put.transfers == db.transfers[i := put.transfers[i]] && AddsRelease(put, db')
    requires RowMoves(cfg, db.transfers[i], put.transfers[i], false)
    ensures TableMoves(cfg, db, db', false)
  {
    forall j | j in db.transfers ensures j in db'.transfers && RowMoves(cfg, db.transfers[j], db'.transfers[j], false) {
      StaysPut(cfg, db.transfers[j]);
    }
  }

  /** The table is left alone, or one fresh row is added. */
  lemma RowAdded(cfg: Cluster, db: Database, db': Database)
    requires Linked(db) && AddsRow(db, db')
    ensures TableMoves(cfg, db, db', false)
  {
    forall j | j in db.transfers ensures j in db'.transfers && RowMoves(cfg, db.transfers[j], db'.transfers[j], false) {
      StaysPut(cfg, db.transfers[j]);
    }
  }

  ghost predicate AddsRow(db: Database, db': Database) {
    || (db'.transfers == db.transfers && db'.nextTransfer == db.nextTransfer)
    || (&& db'.nextTransfer == db.nextTransfer + 1
        && db.nextTransfer in db'.transfers
        && db'.transfers == db.transfers[db.nextTransfer := db'.transfers[db.nextTransfer]]
        && NewRow(db'.transfers[db.nextTransfer])
        && db'.transfers[db.nextTransfer].filesetId in db'.filesets)
  }

  lemma {:induction false} StartMovesTable(cfg: Cluster, transfers: map<nat, Transfer>, plan: seq<Dispatch>,
                                           answers: map<nat, Handover>)
    ensures var started := StartAll(transfers, plan, answers);
      && started.Keys == transfers.Keys
      && forall i :: i in transfers ==> RowMoves(cfg, transfers[i], started[i], true)
                                        && (started[i] == transfers[i] || TakesUp(transfers[i], started[i]))
  {
    if plan == [] {
      forall i | i in transfers ensures RowMoves(cfg, transfers[i], transfers[i], true) {}
    } else {
      StartMovesTable(cfg, transfers, plan[..|plan| - 1], answers);
    }
  }

  /** Reconcile's requeue never fires: what is in flight without a task is a release, and for that it raises. */
  lemma RequeueNeverFires(cfg: Cluster, db: Database, id: nat, task: TaskAnswer, now: int)
    requires RowsOk(cfg, db) && id in db.transfers && InFlight(db.transfers[id].state)
    ensures db.transfers[id].taskId.None? ==>
              db.transfers[id].kind == Release
                && ReconcileOne(cfg, db, id, task, now) == (db, Raised(InvalidTransition))
  {
    assert RowOk(cfg, db.transfers[id]);
  }

  lemma ReconcileMovesTable(cfg: Cluster, db: Database, id: nat, task: TaskAnswer, now: int)
    requires Sound(cfg, db) && id in db.transfers && InFlight(db.transfers[id].state)
    ensures TableMoves(cfg, db, ReconcileOne(cfg, db, id, task, now).0, false)
  {
    RequeueNeverFires(cfg, db, id, task, now);
    RowAdded(cfg, db, db);
    var e := TaskEvent(cfg, id, db.transfers[id], task, now);
    if e.Some? { EventMovesTable(cfg, db, e.value, now, None); }
  }

  lemma CancelMovesTable(cfg: Cluster, db: Database, id: nat, now: int)
    requires Sound(cfg, db)
    ensures TableMoves(cfg, db, Cancel(cfg, db, id, now).0, false)
  {
    RowAdded(cfg, db, db);
    if id in db.transfers && CanCancel(db.transfers[id].state) {
      var after := Cancel(cfg, db, id, now).0;
      assert RowMoves(cfg, db.transfers[id], after.transfers[id], false);
      RowsPut(cfg, db, after, after, id);
    }
  }

  lemma WarmAddsRow(cfg: Cluster, db: Database, owner: string, plan: WarmPlan, now: int, prepared: Option<string>)
    ensures AddsRow(db, SubmitWarm(cfg, db, owner, plan, now, prepared).0)
  {
    var found := LiveFileset(db.filesets, owner, plan.target, plan.name);
    var first := WarmCommitted(db, found, owner, plan, now);
    assert AddsRow(db, first);
  }

  lemma FlushAddsRow(cfg: Cluster, db: Database, owner: string, flush: FlushPlan, now: int, charged: bool)
    ensures AddsRow(db, SubmitFlush(cfg, db, owner, flush, now, charged).0)
  {
  }

  lemma ReleaseAddsRow(db: Database, owner: string, storage: string, name: string, discard: bool, now: int,
                       answer: DeleteAnswer)
    ensures AddsRow(db, ReleaseFileset(db, owner, storage, name, discard, now, answer).0)
  {
    var found := LiveFileset(db.filesets, owner, storage, name);
    if found.Some? { ReleaseAdds(db, found.value, now, answer); }
  }

  ghost predicate Adds(a: Action) {
    a.DoWarm? || a.DoFlush? || a.DoRelease? || a.DoCreate? || a.DoResize? || a.DoMeasure? || a.DoDrain?
  }

  lemma SubmissionAddsRow(cfg: Cluster, db: Database, a: Action)
    requires a.DoWarm? || a.DoFlush? || a.DoRelease?
    ensures AddsRow(db, Step(cfg, db, a).0)
  {
    match a
    case DoWarm(owner, plan, now, prepared) => WarmAddsRow(cfg, db, owner, plan, now, prepared);
    case DoFlush(owner, flush, now, charged) => FlushAddsRow(cfg, db, owner, flush, now, charged);
    case DoRelease(owner, storage, name, discard, now, deleted) =>
      ReleaseAddsRow(db, owner, storage, name, discard, now, deleted);
    case _ =>
  }

  lemma FilesetCallKeepsRows(cfg: Cluster, db: Database, a: Action)
    requires a.DoCreate? || a.DoResize? || a.DoMeasure? || a.DoDrain?
    ensures AddsRow(db, Step(cfg, db, a).0)
  {
  }

  lemma PruneMovesTable(cfg: Cluster, db: Database, now: int)
    ensures TableMoves(cfg, db, Prune(cfg, db, now), false)
  {
    var after := Prune(cfg, db, now);
    forall i | i in db.transfers
      ensures if i in after.transfers then RowMoves(cfg, db.transfers[i], after.transfers[i], false)
        else IsTerminal(db.transfers[i].state)
    {
      StaysPut(cfg, db.transfers[i]);
    }
  }

  /** Every step moves every row the way RowMoves says, and only a scheduler pass hands one over. */
  lemma StepMovesTable(cfg: Cluster, db: Database, a: Action)
    requires Sound(cfg, db)
    ensures TableMoves(cfg, db, Step(cfg, db, a).0, a.DoSchedule?)
  {
    if Adds(a) {
      if a.DoWarm? || a.DoFlush? || a.DoRelease? {
        SubmissionAddsRow(cfg, db, a);
      } else {
        FilesetCallKeepsRows(cfg, db, a);
      }
      RowAdded(cfg, db, Step(cfg, db, a).0);
    } else {
      match a
      case DoEvent(event, now, store) => EventMovesTable(cfg, db, event, now, store);
      case DoReconcile(id, task, now) =>
        RowAdded(cfg, db, db);
        if id in db.transfers && InFlight(db.transfers[id].state) { ReconcileMovesTable(cfg, db, id, task, now); }
      case DoCancel(id, now) => CancelMovesTable(cfg, db, id, now);
      case DoSchedule(now, answers) => StartMovesTable(cfg, db.transfers, Planned(cfg, db, now).plan, answers);
      case DoPrune(now) => PruneMovesTable(cfg, db, now);
      case _ =>
    }
  }

  lemma MovesKeepRowsOk(cfg: Cluster, db: Database, db': Database, scheduling: bool)
    requires RowsOk(cfg, db) && TableMoves(cfg, db, db', scheduling)
    ensures RowsOk(cfg, db')
  {
    forall i | i in db'.transfers ensures RowOk(cfg, db'.transfers[i]) {
      if i in db.transfers {
        assert RowOk(cfg, db.transfers[i]);
        assert RowMoves(cfg, db.transfers[i], db'.transfers[i], scheduling);
      }
    }
  }
}
