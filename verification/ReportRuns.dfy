/** What daemon reports leave on record, one by one and over whole runs. */
module ReportRuns {
  import opened Options
  import opened Transfers
  import opened Tables
  import opened Releases
  import opened Events
  import opened Reconciling
  import opened Runs
  import opened FilesetRuns
  import opened RowRuns
  import opened ReconcileRuns
  import SchedulerLoop
  import FS = Filesets

  /** A number of bytes as it is recorded: no more than were measured. */
  function UpTo(bytes: int, measured: nat): int {
    if bytes <= measured then bytes else measured
  }

  /** A failure of a class the config names, but for the four that never are, while there are attempts left. */
  predicate WillRetry(cfg: Cluster, t: Transfer, e: Event) {
    && e.failure.Some? && FailureNamed(e.failure.value).Some?
    && FailureNamed(e.failure.value).value in cfg.retryOn
    && FailureNamed(e.failure.value).value !in {PermissionDenied, QuotaExceeded, SourceMissing, CancelledByUser}
    && t.attempt <= cfg.retryCount
  }

  /** The report says what the transfer can have come to from where it is known to be, and its fileset with it. */
  predicate Plausible(cfg: Cluster, t: Transfer, state: FS.FilesetState, e: Event) {
    match e.kind
    case Started => t.state in {Assigned, Running}
    case Progress => t.state in {Assigned, Running}
    case Finished => t.state in {Running, Succeeded} && state in {FS.Creating, FS.Populating, FS.Flushing}
    case FailedEvent =>
      && t.state in {Submitted, Assigned, Running, Failed}
      && (WillRetry(cfg, t, e) || state !in {FS.Failed, FS.Released})
  }

  /** A report is taken in if and only if it is newer than all that were, is plausible, and its numbers can be stored;
      what is not taken in changes nothing. */
  lemma TakenInIff(cfg: Cluster, db: Database, e: Event, now: int, store: Option<DeleteAnswer>)
    requires Sound(cfg, db)
    ensures var r := ApplyEvent(cfg, db, e, now, store);
      && (r.1 == Done
          <==> && e.transferId in db.transfers
               && var t := db.transfers[e.transferId];
                  && e.sequence > t.lastSequence
                  && Plausible(cfg, t, db.filesets[t.filesetId].state, e)
                  && (e.bytesDone > 0 ==> t.bytesTotal > 0)
                  && (e.kind == Finished && t.kind != Flush ==>
                       (if e.bytesDone == 0 then t.bytesDone else e.bytesDone) >= 0))
      && (r.1 != Done ==> r.0 == db)
  {
    UnobjectedIff(cfg, db, e);
    if e.transferId in db.transfers {
      assert RowOk(cfg, db.transfers[e.transferId]);
      StoredIff(db.transfers[e.transferId], e);
    }
  }

  lemma UnobjectedIff(cfg: Cluster, db: Database, e: Event)
    requires Linked(db)
    ensures Objection(cfg, db, e).None?
      <==> && e.transferId in db.transfers
           && var t := db.transfers[e.transferId];
              && e.sequence > t.lastSequence
              && Plausible(cfg, t, db.filesets[t.filesetId].state, e)
              && Storable(Progressed(t, e), e)
  {
  }

  /** It is ignored if and only if it is not newer, or says less than, or something else than, what the transfer has
      come to; anything else is an error. */
  lemma IgnoredIff(cfg: Cluster, db: Database, e: Event, now: int, store: Option<DeleteAnswer>)
    ensures ApplyEvent(cfg, db, e, now, store).1 == Ignored
      <==> && e.transferId in db.transfers
           && var t := db.transfers[e.transferId];
              || e.sequence <= t.lastSequence
              || (e.kind in {Started, Progress} && t.state in {Succeeded, Failed, Cancelled})
              || (e.kind == Finished && t.state in {Failed, Cancelled})
              || (e.kind == FailedEvent && t.state in {Succeeded, Cancelled})
  {
  }

  /** What a report that is taken in leaves in its row. */
  lemma RowReported(cfg: Cluster, db: Database, e: Event, now: int, store: Option<DeleteAnswer>)
    requires Linked(db) && ApplyEvent(cfg, db, e, now, store).1 == Done
    ensures e.transferId in db.transfers && e.transferId in ApplyEvent(cfg, db, e, now, store).0.transfers
    ensures var t, u := db.transfers[e.transferId], ApplyEvent(cfg, db, e, now, store).0.transfers[e.transferId];
      && u.lastSequence == e.sequence
      && u.bytesDone == (if e.bytesDone == 0 then t.bytesDone else UpTo(e.bytesDone, t.bytesTotal))
      && u.filesDone == (if e.filesDone == 0 then t.filesDone else Some(e.filesDone))
      && (e.kind == Started ==>
           && u.daemon == Some(e.daemon)
           && u.startedAt == (if t.startedAt.Some? then t.startedAt else Some(e.at)))
      && (e.kind != Started ==> u.daemon == t.daemon && u.startedAt == t.startedAt)
      && (e.kind in {Started, Progress} ==> u.state == Running && u.finishedAt == t.finishedAt)
      && (e.kind == Finished ==> u.state == Succeeded && u.finishedAt == Some(e.at))
      && (e.kind != FailedEvent ==>
           && u.errorCode == t.errorCode && u.errorDetail == t.errorDetail && u.retryAfter == t.retryAfter
           && u.attempt == t.attempt && u.taskId == t.taskId)
      && u.bwlimit == t.bwlimit
  {
    if store.Some? {
      ReleaseAdds(Accepted(cfg, db, e, now), db.transfers[e.transferId].filesetId, now, store.value);
    }
  }

  /** And what a failure leaves: it ends the transfer, or the transfer waits for its next attempt without a task. */
  lemma FailureReported(cfg: Cluster, db: Database, e: Event, now: int, store: Option<DeleteAnswer>)
    requires Linked(db) && ApplyEvent(cfg, db, e, now, store).1 == Done && e.kind == FailedEvent
    ensures e.transferId in db.transfers && e.transferId in ApplyEvent(cfg, db, e, now, store).0.transfers
    ensures var t, u := db.transfers[e.transferId], ApplyEvent(cfg, db, e, now, store).0.transfers[e.transferId];
      && u.errorCode == e.failure && u.errorDetail == (if e.message == "" then None else Some(e.message))
      && (|| (u.state == Failed && u.attempt == t.attempt && u.finishedAt == Some(e.at) && u.taskId == t.taskId
              && u.retryAfter == t.retryAfter)
          || (u.state == Submitted && u.attempt == t.attempt + 1 && u.finishedAt == None && u.taskId == None
              && u.retryAfter == Some(now + cfg.backoff)))
  {
  }

  /** What a report that is taken in leaves of its fileset: a finish makes it READY, unless it goes on to release it;
      a failure for good leaves it FAILED. A warm that finishes records what it brought, and nothing else does. */
  lemma FilesetReported(cfg: Cluster, db: Database, e: Event, now: int)
    requires ApplyEvent(cfg, db, e, now, None).1 == Done
    ensures e.transferId in db.transfers && db.transfers[e.transferId].filesetId in db.filesets
    ensures var t, after := db.transfers[e.transferId], ApplyEvent(cfg, db, e, now, None).0;
      && e.transferId in after.transfers && t.filesetId in after.filesets
      && after.filesets == db.filesets[t.filesetId := after.filesets[t.filesetId]]
      && var f, g, u := db.filesets[t.filesetId], after.filesets[t.filesetId], after.transfers[e.transferId];
         && g.lastTransfer == Some(e.transferId)
         && g.state == (if e.kind == Finished then FS.Ready
                        else if e.kind == FailedEvent && u.state == Failed then FS.Failed else f.state)
         && (if e.kind == Finished && t.kind != Flush
             then g.usedBytes == u.bytesDone && g.usedAt == Some(now) && g.warmFinishedAt == Some(e.at)
                  && g.fileCount == (if u.filesDone in {None, Some(0)} then f.fileCount else u.filesDone)
             else g.usedBytes == f.usedBytes && g.usedAt == f.usedAt && g.warmFinishedAt == f.warmFinishedAt
                  && g.fileCount == f.fileCount)
         && (if e.kind == Finished && t.kind == Flush
             then g.lastFlushedAt == Some(e.at) && g.lastFlushTarget == t.peerRef
             else g.lastFlushedAt == f.lastFlushedAt && g.lastFlushTarget == f.lastFlushTarget)
         && g.path == f.path && g.overAllocation == f.overAllocation && g.warmStartedAt == f.warmStartedAt
         && g.createdAt == f.createdAt && g.releasedAt == f.releasedAt
  {
  }

  // ---- What a pass of reconciliation reports ----

  /** What a row is taken to have come to when its daemon is asked: done, failed, or not over yet. A daemon that cannot
      be reached counts as a failure once the transfer has been out for as long as is allowed. */
  datatype Conclusion = Over(kind: EventKind, bytes: int, files: int, failure: Option<string>) | NotOver

  function Concluded(cfg: Cluster, t: Transfer, answer: TaskAnswer, now: int): Conclusion {
    match answer
    case Found(TaskSucceeded, bytes, files, failure, _) => Over(Finished, bytes, files, failure)
    case Found(TaskUnfinished, _, _, _, _) => NotOver
    case Found(_, bytes, files, failure, _) => Over(FailedEvent, bytes, files, failure)
    case Unreachable(_) =>
      var since := if t.startedAt.Some? then t.startedAt.value else t.submittedAt;
      if now - since >= cfg.unreachableAfter then Over(FailedEvent, 0, 0, Some("daemon_unreachable")) else NotOver
  }

  /** What asking about a row leaves of it: nothing changes while it is not over; and what is concluded is recorded as
      of now, as the next report of its daemon would be. */
  lemma RowReconciled(cfg: Cluster, db: Database, id: nat, answer: TaskAnswer, now: int)
    requires Linked(db) && id in db.transfers && InFlight(db.transfers[id].state) && db.transfers[id].taskId.Some?
    ensures var r, t := ReconcileOne(cfg, db, id, answer, now), db.transfers[id];
      && r.1 in {Done, Ignored, Raised(InvalidTransition), Raised(ConstraintViolated)}
      && (r.1 != Done ==> r.0 == db)
      && (r.1 == Ignored <==> Concluded(cfg, t, answer, now).NotOver?)
      && (r.1 == Done ==>
           && id in r.0.transfers
           && var c, u := Concluded(cfg, t, answer, now), r.0.transfers[id];
              && u.lastSequence == t.lastSequence + 1
              && u.bytesDone == (if c.bytes == 0 then t.bytesDone else UpTo(c.bytes, t.bytesTotal))
              && u.filesDone == (if c.files == 0 then t.filesDone else Some(c.files))
              && (c.kind == Finished ==> u.state == Succeeded && u.finishedAt == Some(now))
              && (c.kind == FailedEvent ==>
                   && u.errorCode == c.failure
                   && ((u.state == Failed && u.finishedAt == Some(now))
                       || (u.state == Submitted && u.attempt == t.attempt + 1
                           && u.retryAfter == Some(now + cfg.backoff)))))
  {
    var e := TaskEvent(cfg, id, db.transfers[id], answer, now);
    if e.Some? {
      NeverOldNews(cfg, db, id, answer, now);
      if ApplyEvent(cfg, db, e.value, now, None).1 == Done {
        RowReported(cfg, db, e.value, now, None);
        if e.value.kind == FailedEvent { FailureReported(cfg, db, e.value, now, None); }
      }
    }
  }

  // ---- Progress over runs ----

  /** The bytes the call reports of row i, if it takes in a report of it; a daemon that is asked reports too. */
  ghost function Heard(cfg: Cluster, db: Database, a: Action, i: nat): Option<int> {
    if Step(cfg, db, a).1 != Done then None
    else if a.DoEvent? && a.event.transferId == i then Some(a.event.bytesDone)
    else if a.DoReconcile? && a.id == i && a.task.Found? then Some(a.task.bytesDone)
    else None
  }

  /** The last number of bytes other than zero that was heard of it. */
  ghost function LastHeard(cfg: Cluster, run: seq<Action>, i: nat): int {
    if run == [] then 0
    else
      var n := |run| - 1;
      var heard := Heard(cfg, After(cfg, EMPTY, run[..n]), run[n], i);
      if heard.Some? && heard.value != 0 then heard.value else LastHeard(cfg, run[..n], i)
  }

  ghost predicate RecordsHeard(t: Transfer, u: Transfer, heard: Option<int>) {
    u.bytesDone == (if heard.Some? && heard.value != 0 then UpTo(heard.value, t.bytesTotal) else t.bytesDone)
  }

  lemma EventRecords(cfg: Cluster, db: Database, e: Event, now: int, store: Option<DeleteAnswer>)
    requires Linked(db) && e.transferId in db.transfers
    ensures var r := ApplyEvent(cfg, db, e, now, store);
      && e.transferId in r.0.transfers
      && RecordsHeard(db.transfers[e.transferId], r.0.transfers[e.transferId],
                      if r.1 == Done then Some(e.bytesDone) else None)
  {
    if ApplyEvent(cfg, db, e, now, store).1 == Done { RowReported(cfg, db, e, now, store); }
  }

  /** A daemon's conclusion about a row in flight is never old news. */
  lemma NeverOldNews(cfg: Cluster, db: Database, id: nat, task: TaskAnswer, now: int)
    requires id in db.transfers && InFlight(db.transfers[id].state)
    requires TaskEvent(cfg, id, db.transfers[id], task, now).Some?
    ensures ApplyEvent(cfg, db, TaskEvent(cfg, id, db.transfers[id], task, now).value, now, None).1 != Ignored
  {
  }

  lemma ReconcileRecords(cfg: Cluster, db: Database, id: nat, task: TaskAnswer, now: int)
    requires Sound(cfg, db) && id in db.transfers && InFlight(db.transfers[id].state)
    ensures var r := ReconcileOne(cfg, db, id, task, now);
      && id in r.0.transfers
      && RecordsHeard(db.transfers[id], r.0.transfers[id],
                      if r.1 == Done && task.Found? then Some(task.bytesDone) else None)
  {
    RequeueNeverFires(cfg, db, id, task, now);
    if db.transfers[id].taskId.Some? {
      var e := TaskEvent(cfg, id, db.transfers[id], task, now);
      if e.Some? {
        NeverOldNews(cfg, db, id, task, now);
        EventRecords(cfg, db, e.value, now, None);
      }
    }
  }

  lemma StepHears(cfg: Cluster, db: Database, a: Action, i: nat)
    requires Sound(cfg, db) && i in db.transfers && i in Step(cfg, db, a).0.transfers
    ensures RecordsHeard(db.transfers[i], Step(cfg, db, a).0.transfers[i], Heard(cfg, db, a, i))
  {
    if !Touches(a, i) {
      UntouchedStays(cfg, db, a, i);
    } else {
      match a
      case DoEvent(event, now, store) => EventRecords(cfg, db, event, now, store);
      case DoReconcile(id, task, now) =>
        if InFlight(db.transfers[i].state) { ReconcileRecords(cfg, db, i, task, now); }
      case DoSchedule(now, answers) =>
        PassKeeps(db.transfers, SchedulerLoop.Planned(cfg, db, now).plan, answers, i);
      case _ =>
    }
  }

  lemma AbsentIsUnheard(cfg: Cluster, db: Database, a: Action, i: nat)
    requires i !in db.transfers
    ensures Heard(cfg, db, a, i).None?
  {
  }

  /** After any run the progress of a transfer is what was last heard of it, up to what was measured; over retries, and
      whoever reported it. */
  lemma {:induction false} ProgressIsLastHeard(cfg: Cluster, run: seq<Action>, i: nat)
    ensures LastHeard(cfg, run, i) != 0 ==> i < After(cfg, EMPTY, run).nextTransfer
    ensures var rows := After(cfg, EMPTY, run).transfers;
      i in rows ==> rows[i].bytesDone == UpTo(LastHeard(cfg, run, i), rows[i].bytesTotal)
  {
    if run != [] {
      var n := |run| - 1;
      var before := After(cfg, EMPTY, run[..n]);
      ProgressIsLastHeard(cfg, run[..n], i);
      EmptyIsSound(cfg);
      RunsAreSound(cfg, EMPTY, run[..n]);
      StepMovesTable(cfg, before, run[n]);
      var after := Step(cfg, before, run[n]).0;
      if i !in before.transfers {
        AbsentIsUnheard(cfg, before, run[n], i);
      } else if i in after.transfers {
        assert RowMoves(cfg, before.transfers[i], after.transfers[i], run[n].DoSchedule?);
        StepHears(cfg, before, run[n], i);
      }
    }
  }
}
