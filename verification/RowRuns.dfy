/** One transfer row over whole runs: which calls write it, and what stays of it. */
module RowRuns {
  import opened Options
  import opened Transfers
  import opened Tables
  import opened Releases
  import opened Events
  import opened Reconciling
  import opened Runs
  import opened FilesetRuns
  import Scheduling
  import SchedulerLoop

  /** The call is about row i, or a pass of the scheduler. */
  predicate Touches(a: Action, i: nat) {
    || a.DoSchedule?
    || (a.DoEvent? && a.event.transferId == i)
    || (a.DoReconcile? && a.id == i)
    || (a.DoCancel? && a.id == i)
  }

  ghost predicate RowStays(db: Database, db': Database, i: nat)
    requires i in db.transfers
  {
    i in db'.transfers ==> db'.transfers[i] == db.transfers[i]
  }

  /** A report leaves every row but its own alone. */
  lemma EventSpares(cfg: Cluster, db: Database, e: Event, now: int, store: Option<DeleteAnswer>, i: nat)
    requires Linked(db) && i in db.transfers
    requires i == e.transferId ==> Objection(cfg, db, e).Some?
    ensures RowStays(db, ApplyEvent(cfg, db, e, now, store).0, i)
  {
    if Objection(cfg, db, e).None? && store.Some? {
      ReleaseAdds(Accepted(cfg, db, e, now), db.transfers[e.transferId].filesetId, now, store.value);
    }
  }

  lemma ReconcileSpares(cfg: Cluster, db: Database, id: nat, task: TaskAnswer, now: int, i: nat)
    requires Linked(db) && i in db.transfers && id != i
    ensures RowStays(db, ReconcileOne(cfg, db, id, task, now).0, i)
  {
    if id in db.transfers && db.transfers[id].taskId.Some? {
      var e := TaskEvent(cfg, id, db.transfers[id], task, now);
      if e.Some? { EventSpares(cfg, db, e.value, now, None, i); }
    }
  }

  lemma AddsRowSpares(db: Database, db': Database, i: nat)
    requires Linked(db) && i in db.transfers && AddsRow(db, db')
    ensures RowStays(db, db', i)
  {
  }

  /** A call that is not about a row leaves it as it is, or prunes it. */
  lemma UntouchedStays(cfg: Cluster, db: Database, a: Action, i: nat)
    requires Linked(db) && i in db.transfers && !Touches(a, i)
    ensures RowStays(db, Step(cfg, db, a).0, i)
  {
    if Adds(a) {
      if a.DoWarm? || a.DoFlush? || a.DoRelease? {
        SubmissionAddsRow(cfg, db, a);
      } else {
        FilesetCallKeepsRows(cfg, db, a);
      }
      AddsRowSpares(db, Step(cfg, db, a).0, i);
    } else {
      match a
      case DoEvent(event, now, store) => EventSpares(cfg, db, event, now, store, i);
      case DoReconcile(id, task, now) => ReconcileSpares(cfg, db, id, task, now, i);
      case _ =>
    }
  }

  /** A pass writes of a row at most who has it and under what terms, and of one that is not submitted nothing. */
  lemma {:induction false} PassKeeps(transfers: map<nat, Transfer>, plan: seq<Scheduling.Dispatch>,
                                     answers: map<nat, SchedulerLoop.Handover>, i: nat)
    requires i in transfers
    ensures var t, after := transfers[i], SchedulerLoop.StartAll(transfers, plan, answers);
      && i in after
      && after[i] == t.(state := after[i].state, daemon := after[i].daemon, taskId := after[i].taskId,
                        bwlimit := after[i].bwlimit)
      && (t.state != Submitted ==> after[i] == t)
  {
    if plan != [] { PassKeeps(transfers, plan[..|plan| - 1], answers, i); }
  }

  // ---- The job ----

  /** Whatever happens to a transfer, it stays the job that was submitted: its kind, user, fileset, far end, route,
      bytes, age, and what becomes of its fileset afterwards. */
  lemma {:induction false} JobLasts(cfg: Cluster, db: Database, run: seq<Action>, i: nat)
    requires Sound(cfg, db) && i in db.transfers
    ensures var after := After(cfg, db, run);
      && i < after.nextTransfer
      && (i in after.transfers ==> SameJob(db.transfers[i], after.transfers[i]))
  {
    if run != [] {
      var n := |run| - 1;
      var before := After(cfg, db, run[..n]);
      JobLasts(cfg, db, run[..n], i);
      RunsAreSound(cfg, db, run[..n]);
      StepMovesTable(cfg, before, run[n]);
      if i in before.transfers && i in After(cfg, db, run).transfers {
        assert RowMoves(cfg, before.transfers[i], After(cfg, db, run).transfers[i], run[n].DoSchedule?);
      }
    }
  }

  // ---- Cancelled for good ----

  lemma CancelledStep(cfg: Cluster, db: Database, a: Action, i: nat)
    requires Linked(db) && i in db.transfers && db.transfers[i].state == Cancelled
    ensures RowStays(db, Step(cfg, db, a).0, i)
  {
    if Touches(a, i) {
      match a
      case DoSchedule(now, answers) =>
        PassKeeps(db.transfers, SchedulerLoop.Planned(cfg, db, now).plan, answers, i);
      case DoEvent(event, now, store) => EventSpares(cfg, db, event, now, store, i);
      case _ =>
    } else {
      UntouchedStays(cfg, db, a, i);
    }
  }

  lemma {:induction false} CancelledThrough(cfg: Cluster, db: Database, run: seq<Action>, i: nat)
    requires Sound(cfg, db) && i in db.transfers && db.transfers[i].state == Cancelled
    ensures var after := After(cfg, db, run);
      i < after.nextTransfer && RowStays(db, after, i)
  {
    JobLasts(cfg, db, run, i);
    if run != [] {
      var n := |run| - 1;
      var before := After(cfg, db, run[..n]);
      CancelledThrough(cfg, db, run[..n], i);
      RunsAreSound(cfg, db, run[..n]);
      JobLasts(cfg, db, run[..n], i);
      StepMovesTable(cfg, before, run[n]);
      if i in before.transfers { CancelledStep(cfg, before, run[n], i); }
    }
  }

  /** A cancel goes through for whatever has not ended, and what it leaves is final: whatever is still reported, planned
      or reconciled, the transfer is CANCELLED as of that moment for as long as its row is kept. */
  lemma CancelledForGood(cfg: Cluster, db: Database, id: nat, now: int, run: seq<Action>)
    requires Sound(cfg, db)
    ensures Step(cfg, db, DoCancel(id, now)).1 == Done
      <==> id in db.transfers && db.transfers[id].state in {Submitted, Assigned, Running}
    ensures Step(cfg, db, DoCancel(id, now)).1 == Done ==>
      var t, after := db.transfers[id], After(cfg, Step(cfg, db, DoCancel(id, now)).0, run);
      && id in Step(cfg, db, DoCancel(id, now)).0.transfers
      && (id in after.transfers ==>
           && after.transfers[id].state == Cancelled
           && after.transfers[id].finishedAt == Some(now)
           && after.transfers[id].errorCode == Some("cancelled")
           && after.transfers[id].attempt == t.attempt && after.transfers[id].bytesDone == t.bytesDone
           && after.transfers[id].startedAt == t.startedAt)
  {
    if Step(cfg, db, DoCancel(id, now)).1 == Done {
      StepKeepsSound(cfg, db, DoCancel(id, now));
      CancelledThrough(cfg, Step(cfg, db, DoCancel(id, now)).0, run, id);
    }
  }
}
