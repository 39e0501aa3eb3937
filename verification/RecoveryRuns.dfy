/** Which reservations can still be given back. */
module RecoveryRuns {
  import opened Options
  import opened Transfers
  import opened Tables
  import opened Releases
  import opened Events
  import opened Cancels
  import opened Reconciling
  import opened Submissions
  import opened Runs
  import opened FilesetRuns
  import SchedulerLoop
  import Reservations
  import Retention
  import FS = Filesets

  // ---- Whoever takes a fileset up is there to leave it ----

  predicate Active(t: Transfer) { !IsTerminal(t.state) }

  predicate Busy(state: FS.FilesetState) {
    state in {FS.Populating, FS.Flushing, FS.Releasing}
  }

  ghost predicate AtWork(db: Database, i: nat) {
    exists j :: j in db.transfers && db.transfers[j].filesetId == i && Active(db.transfers[j])
  }

  /** A transfer of the fileset that is over. */
  ghost predicate Over(db: Database, i: nat) {
    exists j :: j in db.transfers && db.transfers[j].filesetId == i && !Active(db.transfers[j])
  }

  /** A fileset that is busy has a transfer at work on it, and one still being created has none that is over. */
  ghost predicate Tended(db: Database) {
    forall i :: i in db.filesets ==> TendedAt(db, i)
  }

  ghost predicate TendedAt(db: Database, i: nat)
    requires i in db.filesets
  {
    && (Busy(db.filesets[i].state) ==> AtWork(db, i))
    && (db.filesets[i].state == FS.Creating ==> !Over(db, i))
  }

  /** No transfer of the fileset ends, and none that has ended comes in. */
  ghost predicate NoneEnds(db: Database, db': Database, i: nat) {
    && (forall j :: j in db.transfers && db.transfers[j].filesetId == i && Active(db.transfers[j]) ==>
         j in db'.transfers && db'.transfers[j].filesetId == i && Active(db'.transfers[j]))
    && (forall j :: j in db'.transfers && db'.transfers[j].filesetId == i && !Active(db'.transfers[j]) ==>
         j in db.transfers && db.transfers[j].filesetId == i && !Active(db.transfers[j]))
  }

  /** What a step may do to one fileset: leave its state while none of its transfers ends, bring it to rest, have it
      taken up by a transfer at work, or make it new. */
  ghost predicate Tends(db: Database, db': Database, i: nat)
    requires i in db'.filesets
  {
    || (i in db.filesets && db'.filesets[i].state == db.filesets[i].state && NoneEnds(db, db', i))
    || db'.filesets[i].state in {FS.Ready, FS.Failed, FS.Released}
    || (Busy(db'.filesets[i].state) && AtWork(db', i))
    || (db'.filesets[i].state == FS.Creating && !Over(db', i))
  }

  lemma TendsKeeps(db: Database, db': Database, i: nat)
    requires i in db'.filesets && Tends(db, db', i) && (i in db.filesets ==> TendedAt(db, i))
    ensures TendedAt(db', i)
  {
    if i in db.filesets && db'.filesets[i].state == db.filesets[i].state && NoneEnds(db, db', i) {
      if AtWork(db, i) {
        var j :| j in db.transfers && db.transfers[j].filesetId == i && Active(db.transfers[j]);
        assert j in db'.transfers && db'.transfers[j].filesetId == i && Active(db'.transfers[j]);
      }
    }
  }

  ghost predicate AllTend(db: Database, db': Database) {
    forall i :: i in db'.filesets ==> Tends(db, db', i)
  }

  /** One transfer row is written, and at most the state of its fileset. */
  lemma OneRowTends(db: Database, db': Database, j: nat)
    requires j in db'.transfers && db'.transfers == db.transfers[j := db'.transfers[j]]
    requires j in db.transfers ==> db.transfers[j].filesetId == db'.transfers[j].filesetId
    requires var f := db'.transfers[j].filesetId;
      && (forall i :: i in db'.filesets && i != f ==> i in db.filesets && db'.filesets[i].state == db.filesets[i].state)
      && (f in db'.filesets ==> Tends(db, db', f))
    ensures AllTend(db, db')
  {
    forall i | i in db'.filesets ensures Tends(db, db', i) {
      if i != db'.transfers[j].filesetId { assert NoneEnds(db, db', i); }
    }
  }

  /** No transfer row is written, and no state but of a fileset that is new or comes to rest. */
  lemma SameRowsTend(db: Database, db': Database)
    requires db'.transfers == db.transfers
    requires forall i :: i in db'.filesets ==>
               (i in db.filesets && db'.filesets[i].state == db.filesets[i].state)
                 || db'.filesets[i].state in {FS.Ready, FS.Failed, FS.Released}
               || (i !in db.filesets && db'.filesets[i].state == FS.Creating)
    requires forall j :: j in db.transfers ==> db.transfers[j].filesetId in db.filesets
    ensures AllTend(db, db')
  {
    forall i | i in db'.filesets ensures Tends(db, db', i) {
      if i in db.filesets { assert NoneEnds(db, db', i); }
    }
  }

  lemma Nothing(db: Database)
    requires Linked(db)
    ensures AllTend(db, db)
  {
    SameRowsTend(db, db);
  }

  // ---- Call by call ----

  lemma AcceptedTends(cfg: Cluster, db: Database, e: Event, now: int)
    requires Objection(cfg, db, e).None?
    ensures AllTend(db, Accepted(cfg, db, e, now))
  {
    var db', t := Accepted(cfg, db, e, now), db.transfers[e.transferId];
    var f := t.filesetId;
    if !(db'.filesets[f].state in {FS.Ready, FS.Failed}) {
      assert Active(db'.transfers[e.transferId]);
      assert db'.filesets[f].state == db.filesets[f].state;
      assert NoneEnds(db, db', f);
    }
    OneRowTends(db, db', e.transferId);
  }

  lemma ReleaseTends(db: Database, id: nat, now: int, answer: DeleteAnswer)
    requires Linked(db) && id in db.filesets
    ensures AllTend(db, PerformRelease(db, id, now, answer).0)
  {
    var db' := PerformRelease(db, id, now, answer).0;
    if FS.Legal(db.filesets[id].state, FS.Releasing) {
      var j := db.nextTransfer;
      if answer.NoAnswer? { assert Active(db'.transfers[j]) && db'.transfers[j].filesetId == id; }
      OneRowTends(db, db', j);
    } else {
      Nothing(db);
    }
  }

  lemma AllTendKeeps(db: Database, db': Database)
    requires Tended(db) && AllTend(db, db')
    ensures Tended(db')
  {
    forall i | i in db'.filesets ensures TendedAt(db', i) { TendsKeeps(db, db', i); }
  }

  lemma EventTended(cfg: Cluster, db: Database, e: Event, now: int, store: Option<DeleteAnswer>)
    requires Linked(db) && Tended(db)
    ensures Tended(ApplyEvent(cfg, db, e, now, store).0)
  {
    if Objection(cfg, db, e).None? {
      var accepted := Accepted(cfg, db, e, now);
      AcceptedTends(cfg, db, e, now);
      AllTendKeeps(db, accepted);
      if store.Some? {
        AcceptedKeepsLinks(cfg, db, e, now);
        ReleaseTends(accepted, db.transfers[e.transferId].filesetId, now, store.value);
        AllTendKeeps(accepted, PerformRelease(accepted, db.transfers[e.transferId].filesetId, now, store.value).0);
      }
    }
  }

  lemma ReconcileTended(cfg: Cluster, db: Database, id: nat, task: TaskAnswer, now: int)
    requires Sound(cfg, db) && Tended(db) && id in db.transfers && InFlight(db.transfers[id].state)
    ensures Tended(ReconcileOne(cfg, db, id, task, now).0)
  {
    RequeueNeverFires(cfg, db, id, task, now);
    if db.transfers[id].taskId.Some? {
      var e := TaskEvent(cfg, id, db.transfers[id], task, now);
      if e.Some? { EventTended(cfg, db, e.value, now, None); }
    }
  }

  lemma CancelTends(cfg: Cluster, db: Database, id: nat, now: int)
    requires Linked(db)
    ensures AllTend(db, Cancel(cfg, db, id, now).0)
  {
    if id in db.transfers && CanCancel(db.transfers[id].state) {
      OneRowTends(db, Cancel(cfg, db, id, now).0, id);
    } else {
      Nothing(db);
    }
  }

  lemma FlushTends(cfg: Cluster, db: Database, owner: string, flush: FlushPlan, now: int, charged: bool)
    requires Linked(db)
    ensures AllTend(db, SubmitFlush(cfg, db, owner, flush, now, charged).0)
  {
    var r := SubmitFlush(cfg, db, owner, flush, now, charged);
    if r.1 in {Done, Raised(Interrupted)} {
      var j := db.nextTransfer;
      assert Active(r.0.transfers[j])
        && r.0.transfers[j].filesetId == LiveFileset(db.filesets, owner, flush.storage, flush.name).value;
      OneRowTends(db, r.0, j);
    } else {
      Nothing(db);
    }
  }

  lemma PreparedStates(cfg: Cluster, first: Database, id: nat, owner: string, bytesTotal: nat, now: int,
                       prepared: Option<string>)
    requires id in first.filesets
    ensures var db' := Prepared(cfg, first, id, owner, bytesTotal, now, prepared).0;
      && db'.transfers == first.transfers && db'.filesets.Keys == first.filesets.Keys
      && (forall i :: i in first.filesets && i != id ==> db'.filesets[i] == first.filesets[i])
      && db'.filesets[id].state in {first.filesets[id].state, FS.Populating}
  {
  }

  lemma CommittedStates(db: Database, found: Option<nat>, owner: string, plan: WarmPlan, now: int)
    requires Linked(db) && (found.Some? ==> found.value in db.filesets)
    ensures var first, j := WarmCommitted(db, found, owner, plan, now), db.nextTransfer;
      var id := if found.Some? then found.value else db.nextFileset;
      && j !in db.transfers && j in first.transfers && first.transfers == db.transfers[j := first.transfers[j]]
      && first.transfers[j].filesetId == id && Active(first.transfers[j])
      && id in first.filesets
      && (forall i :: i in first.filesets && i != id ==> i in db.filesets && first.filesets[i] == db.filesets[i])
      && (if id in db.filesets then first.filesets[id].state == db.filesets[id].state
          else first.filesets[id].state == FS.Creating)
  {
  }

  lemma WarmTends(cfg: Cluster, db: Database, owner: string, plan: WarmPlan, now: int, prepared: Option<string>)
    requires Linked(db)
    ensures AllTend(db, SubmitWarm(cfg, db, owner, plan, now, prepared).0)
  {
    if WarmObjection(cfg, db, owner, plan).Some? {
      Nothing(db);
    } else {
      var found := LiveFileset(db.filesets, owner, plan.target, plan.name);
      var id := if found.Some? then found.value else db.nextFileset;
      CommittedStates(db, found, owner, plan, now);
      FilledTends(cfg, db, WarmCommitted(db, found, owner, plan, now), id, owner, plan.bytesTotal, now, prepared);
    }
  }

  lemma FilledTends(cfg: Cluster, db: Database, first: Database, id: nat, owner: string, bytesTotal: nat, now: int,
                    prepared: Option<string>)
    requires var j := db.nextTransfer;
      && Linked(db) && j !in db.transfers && j in first.transfers
      && first.transfers == db.transfers[j := first.transfers[j]]
      && first.transfers[j].filesetId == id && Active(first.transfers[j])
    requires id in first.filesets
      && (forall i :: i in first.filesets && i != id ==> i in db.filesets && first.filesets[i] == db.filesets[i])
    requires if id in db.filesets then first.filesets[id].state == db.filesets[id].state
      else first.filesets[id].state == FS.Creating
    ensures AllTend(db, Prepared(cfg, first, id, owner, bytesTotal, now, prepared).0)
  {
    var db' := Prepared(cfg, first, id, owner, bytesTotal, now, prepared).0;
    PreparedStates(cfg, first, id, owner, bytesTotal, now, prepared);
    WarmTendsAt(db, db', id, db.nextTransfer);
    OneRowTends(db, db', db.nextTransfer);
  }

  /** The fileset a new transfer is queued for. */
  lemma WarmTendsAt(db: Database, db': Database, id: nat, j: nat)
    requires Linked(db) && id in db'.filesets && j !in db.transfers
    requires j in db'.transfers && db'.transfers == db.transfers[j := db'.transfers[j]]
    requires db'.transfers[j].filesetId == id && Active(db'.transfers[j])
    requires db'.filesets[id].state == FS.Populating
      || (if id in db.filesets then db'.filesets[id].state == db.filesets[id].state
          else db'.filesets[id].state == FS.Creating)
    ensures Tends(db, db', id)
  {
    if db'.filesets[id].state != FS.Populating && id in db.filesets { assert NoneEnds(db, db', id); }
  }

  lemma ScheduleTends(cfg: Cluster, db: Database, now: int, answers: map<nat, SchedulerLoop.Handover>)
    ensures AllTend(db, SchedulerLoop.ScheduleOnce(cfg, db, now, answers))
  {
    var db' := SchedulerLoop.ScheduleOnce(cfg, db, now, answers);
    StartMovesTable(cfg, db.transfers, SchedulerLoop.Planned(cfg, db, now).plan, answers);
    forall i | i in db'.filesets ensures Tends(db, db', i) {
      forall j | j in db.transfers
        ensures db'.transfers[j].filesetId == db.transfers[j].filesetId
        && (Active(db'.transfers[j]) <==> Active(db.transfers[j])) {
        assert db'.transfers[j] == db.transfers[j] || TakesUp(db.transfers[j], db'.transfers[j]);
      }
      assert NoneEnds(db, db', i);
    }
  }

  lemma PruneTends(cfg: Cluster, db: Database, now: int)
    ensures AllTend(db, Retention.Prune(cfg, db, now))
  {
    var db' := Retention.Prune(cfg, db, now);
    forall i | i in db'.filesets ensures Tends(db, db', i) { assert NoneEnds(db, db', i); }
  }

  /** A create, a resize, a measurement or a drain leaves the transfers alone and every fileset there is in its
      state; what it adds is new. */
  ghost predicate KeepsStates(db: Database, db': Database) {
    && db'.transfers == db.transfers
    && (forall i ::
          i in db.filesets
          ==> i in db'.filesets && db'.filesets[i].state == db.filesets[i].state
              && SameName(db.filesets[i], db'.filesets[i]))
    && (forall i :: i in db'.filesets && i !in db.filesets ==> db'.filesets[i].state in {FS.Creating, FS.Ready})
  }

  lemma AnsweredKeepsStates(filesets: map<nat, Fileset>, id: nat, f: Fileset, answer: Reservations.CreateAnswer)
    requires id !in filesets && f.state == FS.Creating
    ensures var after := Reservations.Answered(filesets[id := f], id, answer);
      && (forall i :: i in filesets ==> i in after && after[i] == filesets[i])
      && (forall i :: i in after && i !in filesets ==> i == id && after[i].state in {FS.Creating, FS.Ready})
  {
  }

  lemma CreateKeepsStates(cfg: Cluster, db: Database, owner: string, storage: string, name: string, size: int, now: int,
                          answer: Reservations.CreateAnswer)
    requires Linked(db)
    ensures KeepsStates(db, Reservations.CreateOutput(cfg, db, owner, storage, name, size, now, answer).0)
  {
    if Reservations.CreateObjection(cfg, db, owner, storage, name, size).None? {
      AnsweredKeepsStates(db.filesets, db.nextFileset,
                          NewFileset(name, owner, storage, FS.Output, size, None, now), answer);
    }
  }

  lemma ResizeKeepsStates(cfg: Cluster, db: Database, id: nat, size: int, force: bool, quotaSet: bool)
    ensures KeepsStates(db, Reservations.Resize(cfg, db, id, size, force, quotaSet).0)
  {
  }

  lemma MeasureKeepsStates(db: Database, id: nat, used: nat, fileCount: int, now: int)
    ensures KeepsStates(db, Reservations.Measure(db, id, used, fileCount, now).0)
  {
  }

  lemma FilesetCallKeepsStates(cfg: Cluster, db: Database, a: Action)
    requires Linked(db) && (a.DoCreate? || a.DoResize? || a.DoMeasure? || a.DoDrain?)
    ensures KeepsStates(db, Step(cfg, db, a).0)
  {
    match a
    case DoCreate(owner, storage, name, size, now, created) =>
      CreateKeepsStates(cfg, db, owner, storage, name, size, now, created);
    case DoResize(id, size, force, quotaSet) => ResizeKeepsStates(cfg, db, id, size, force, quotaSet);
    case _ => NoteKeepsStates(cfg, db, a);
  }

  lemma NoteKeepsStates(cfg: Cluster, db: Database, a: Action)
    requires Linked(db) && (a.DoMeasure? || a.DoDrain?)
    ensures KeepsStates(db, Step(cfg, db, a).0)
  {
    if a.DoMeasure? { MeasureKeepsStates(db, a.id, a.used, a.fileCount, a.now); }
  }

  lemma FilesetCallTends(cfg: Cluster, db: Database, a: Action)
    requires Linked(db) && (a.DoCreate? || a.DoResize? || a.DoMeasure? || a.DoDrain?)
    ensures AllTend(db, Step(cfg, db, a).0)
  {
    FilesetCallKeepsStates(cfg, db, a);
    SameRowsTend(db, Step(cfg, db, a).0);
  }

  lemma StepTended(cfg: Cluster, db: Database, a: Action)
    requires Sound(cfg, db) && Tended(db)
    ensures Tended(Step(cfg, db, a).0)
  {
    match a
    case DoEvent(event, now, store) => EventTended(cfg, db, event, now, store);
    case DoReconcile(id, task, now) =>
      if id in db.transfers && InFlight(db.transfers[id].state) { ReconcileTended(cfg, db, id, task, now); }
    case DoWarm(owner, plan, now, prepared) =>
      WarmTends(cfg, db, owner, plan, now, prepared);
      AllTendKeeps(db, SubmitWarm(cfg, db, owner, plan, now, prepared).0);
    case DoFlush(owner, flush, now, charged) =>
      FlushTends(cfg, db, owner, flush, now, charged);
      AllTendKeeps(db, SubmitFlush(cfg, db, owner, flush, now, charged).0);
    case DoSchedule(now, answers) =>
      ScheduleTends(cfg, db, now, answers);
      AllTendKeeps(db, SchedulerLoop.ScheduleOnce(cfg, db, now, answers));
    case DoCancel(id, now) =>
      CancelTends(cfg, db, id, now);
      AllTendKeeps(db, Cancel(cfg, db, id, now).0);
    case DoRelease(owner, storage, name, discard, now, deleted) =>
      ReleaseCallTended(db, owner, storage, name, discard, now, deleted);
    case DoPrune(now) =>
      PruneTends(cfg, db, now);
      AllTendKeeps(db, Retention.Prune(cfg, db, now));
    case _ =>
      FilesetCallTends(cfg, db, a);
      AllTendKeeps(db, Step(cfg, db, a).0);
  }

  lemma ReleaseCallTended(db: Database, owner: string, storage: string, name: string, discard: bool, now: int,
                          answer: DeleteAnswer)
    requires Linked(db) && Tended(db)
    ensures Tended(ReleaseFileset(db, owner, storage, name, discard, now, answer).0)
  {
    var found := LiveFileset(db.filesets, owner, storage, name);
    if found.Some? {
      ReleaseTends(db, found.value, now, answer);
      AllTendKeeps(db, PerformRelease(db, found.value, now, answer).0);
    }
  }

  /** After any run a fileset that is being filled, flushed or released has a transfer at work on it. */
  lemma {:induction false} AlwaysTended(cfg: Cluster, run: seq<Action>)
    ensures Sound(cfg, After(cfg, EMPTY, run)) && Tended(After(cfg, EMPTY, run))
  {
    EmptyIsSound(cfg);
    RunsAreSound(cfg, EMPTY, run);
    if run != [] {
      var n := |run| - 1;
      AlwaysTended(cfg, run[..n]);
      StepTended(cfg, After(cfg, EMPTY, run[..n]), run[n]);
    }
  }

  // ---- Giving a reservation back ----

  /** Nobody warms into the name the fileset has. */
  ghost predicate NotWarmed(f: Fileset, a: Action) {
    a.DoWarm? ==> !(a.owner == f.owner && a.plan.target == f.storage && a.plan.name == f.name)
  }

  /** Some run without a warm into it leaves the fileset released. */
  ghost predicate CanBeFreed(cfg: Cluster, db: Database, i: nat)
    requires i in db.filesets
  {
    exists run :: Frees(cfg, db, run, i)
  }

  ghost predicate Frees(cfg: Cluster, db: Database, run: seq<Action>, i: nat)
    requires i in db.filesets
  {
    && (forall k :: 0 <= k < |run| ==> NotWarmed(db.filesets[i], run[k]) && Possible(cfg, run[k]))
    && i in After(cfg, db, run).filesets && !Live(After(cfg, db, run).filesets[i])
  }

  /** Still being created, and nobody at it: what a create leaves that was cut short. */
  ghost predicate Orphaned(db: Database, i: nat)
    requires i in db.filesets
  {
    db.filesets[i].state == FS.Creating && !AtWork(db, i)
  }

  lemma ReleaseFrees(cfg: Cluster, db: Database, i: nat)
    requires UniqueNames(db.filesets) && i in db.filesets && db.filesets[i].state in {FS.Ready, FS.Failed}
    ensures var f := db.filesets[i];
      var after := Step(cfg, db, DoRelease(f.owner, f.storage, f.name, true, 0, Deleted)).0;
      i in after.filesets && !Live(after.filesets[i])
  {
    var f := db.filesets[i];
    assert i in LiveIds(db.filesets, f.owner, f.storage, f.name);
    TheLiveFileset(db.filesets, f.owner, f.storage, f.name, i);
    ReleasePreserves(db, i, 0, Deleted);
  }

  lemma CancelFails(cfg: Cluster, db: Database, i: nat, j: nat)
    requires Sound(cfg, db) && i in db.filesets && Live(db.filesets[i])
    requires j in db.transfers && db.transfers[j].filesetId == i && Active(db.transfers[j])
    ensures var after := Step(cfg, db, DoCancel(j, 0)).0;
      && Sound(cfg, after) && i in after.filesets && after.filesets[i].state == FS.Failed
      && SameName(db.filesets[i], after.filesets[i])
  {
    StepKeepsSound(cfg, db, DoCancel(j, 0));
  }

  lemma AfterTwo(cfg: Cluster, db: Database, a: Action, b: Action)
    ensures After(cfg, db, [a]) == Step(cfg, db, a).0
    ensures After(cfg, db, [a, b]) == Step(cfg, Step(cfg, db, a).0, b).0
  {
    assert [a][..0] == [] && [a, b][..1] == [a];
  }

  /** Two calls at most: a cancel of whatever is at work on the fileset, and a release that its daemon confirms. */
  lemma FreesInTwo(cfg: Cluster, db: Database, i: nat) returns (run: seq<Action>)
    requires Sound(cfg, db) && Tended(db) && i in db.filesets && Live(db.filesets[i]) && !Orphaned(db, i)
    ensures |run| <= 2 && Frees(cfg, db, run, i)
  {
    assert TendedAt(db, i);
    var f := db.filesets[i];
    var release := DoRelease(f.owner, f.storage, f.name, true, 0, Deleted);
    if f.state in {FS.Ready, FS.Failed} {
      run := [release];
      ReleaseFrees(cfg, db, i);
      AfterTwo(cfg, db, release, release);
    } else {
      var j :| j in db.transfers && db.transfers[j].filesetId == i && Active(db.transfers[j]);
      run := [DoCancel(j, 0), release];
      CancelFails(cfg, db, i, j);
      ReleaseFrees(cfg, Step(cfg, db, DoCancel(j, 0)).0, i);
      AfterTwo(cfg, db, DoCancel(j, 0), release);
    }
  }

  // ---- An orphan stays one ----

  /** Nothing refers to it. */
  ghost predicate Alone(db: Database, i: nat) {
    && i in db.filesets && db.filesets[i].state == FS.Creating
    && forall j :: j in db.transfers ==> db.transfers[j].filesetId != i
  }

  ghost predicate StaysAlone(db: Database, db': Database, i: nat) {
    i in db.filesets && Alone(db', i) && SameName(db.filesets[i], db'.filesets[i])
  }

  lemma OrphansAreAlone(db: Database, i: nat)
    requires Tended(db) && i in db.filesets
    ensures Orphaned(db, i) <==> Alone(db, i)
  {
    assert TendedAt(db, i);
  }

  /** One fileset is written that is not the orphan, and no transfer is added for it. */
  lemma OthersWrite(db: Database, db': Database, i: nat, f: nat)
    requires Alone(db, i) && f != i && f in db'.filesets && db'.filesets == db.filesets[f := db'.filesets[f]]
    requires forall j ::
      j in db'.transfers
      ==> (j in db.transfers && db'.transfers[j].filesetId == db.transfers[j].filesetId)
          || db'.transfers[j].filesetId == f
    ensures StaysAlone(db, db', i)
  {
  }

  lemma ReleaseLeavesAlone(db: Database, id: nat, now: int, answer: DeleteAnswer, i: nat)
    requires Linked(db) && Alone(db, i) && id in db.filesets
    ensures StaysAlone(db, PerformRelease(db, id, now, answer).0, i)
  {
    if FS.Legal(db.filesets[id].state, FS.Releasing) { OthersWrite(db, PerformRelease(db, id, now, answer).0, i, id); }
  }

  lemma EventLeavesAlone(cfg: Cluster, db: Database, e: Event, now: int, store: Option<DeleteAnswer>, i: nat)
    requires Linked(db) && Alone(db, i)
    ensures StaysAlone(db, ApplyEvent(cfg, db, e, now, store).0, i)
  {
    if Objection(cfg, db, e).None? {
      var accepted, f := Accepted(cfg, db, e, now), db.transfers[e.transferId].filesetId;
      OthersWrite(db, accepted, i, f);
      if store.Some? {
        AcceptedKeepsLinks(cfg, db, e, now);
        ReleaseLeavesAlone(accepted, f, now, store.value, i);
      }
    }
  }

  lemma ReconcileLeavesAlone(cfg: Cluster, db: Database, id: nat, task: TaskAnswer, now: int, i: nat)
    requires Sound(cfg, db) && Alone(db, i) && id in db.transfers && InFlight(db.transfers[id].state)
    ensures StaysAlone(db, ReconcileOne(cfg, db, id, task, now).0, i)
  {
    RequeueNeverFires(cfg, db, id, task, now);
    if db.transfers[id].taskId.Some? {
      var e := TaskEvent(cfg, id, db.transfers[id], task, now);
      if e.Some? { EventLeavesAlone(cfg, db, e.value, now, None, i); }
    }
  }

  lemma CancelLeavesAlone(cfg: Cluster, db: Database, id: nat, now: int, i: nat)
    requires Linked(db) && Alone(db, i)
    ensures StaysAlone(db, Cancel(cfg, db, id, now).0, i)
  {
  }

  lemma FlushLeavesAlone(cfg: Cluster, db: Database, owner: string, flush: FlushPlan, now: int, charged: bool, i: nat)
    requires Linked(db) && Alone(db, i)
    ensures StaysAlone(db, SubmitFlush(cfg, db, owner, flush, now, charged).0, i)
  {
    var r := SubmitFlush(cfg, db, owner, flush, now, charged);
    if r.1 in {Done, Raised(Interrupted)} {
      OthersWrite(db, r.0, i, LiveFileset(db.filesets, owner, flush.storage, flush.name).value);
    }
  }

  lemma ReleaseCallLeavesAlone(db: Database, owner: string, storage: string, name: string, discard: bool, now: int,
                               answer: DeleteAnswer, i: nat)
    requires Linked(db) && Alone(db, i)
    ensures StaysAlone(db, ReleaseFileset(db, owner, storage, name, discard, now, answer).0, i)
  {
    var found := LiveFileset(db.filesets, owner, storage, name);
    if found.Some? { ReleaseLeavesAlone(db, found.value, now, answer, i); }
  }

  lemma WarmLeavesAlone(cfg: Cluster, db: Database, a: Action, i: nat)
    requires Linked(db) && Alone(db, i) && a.DoWarm? && NotWarmed(db.filesets[i], a)
    ensures StaysAlone(db, Step(cfg, db, a).0, i)
  {
    if WarmAdmitted(cfg, db, a) {
      WarmReserves(cfg, db, a);
      WarmQueues(cfg, db, a);
      OthersWrite(db, Step(cfg, db, a).0, i, WarmId(db, a));
    } else {
      WarmRefused(cfg, db, a);
    }
  }

  lemma ScheduleLeavesAlone(cfg: Cluster, db: Database, now: int, answers: map<nat, SchedulerLoop.Handover>, i: nat)
    requires Alone(db, i)
    ensures StaysAlone(db, SchedulerLoop.ScheduleOnce(cfg, db, now, answers), i)
  {
    StartMovesTable(cfg, db.transfers, SchedulerLoop.Planned(cfg, db, now).plan, answers);
  }

  lemma FilesetCallLeavesAlone(cfg: Cluster, db: Database, a: Action, i: nat)
    requires Linked(db) && Alone(db, i) && (a.DoCreate? || a.DoResize? || a.DoMeasure? || a.DoDrain?)
    ensures StaysAlone(db, Step(cfg, db, a).0, i)
  {
    FilesetCallKeepsStates(cfg, db, a);
  }

  lemma StepLeavesAlone(cfg: Cluster, db: Database, a: Action, i: nat)
    requires Sound(cfg, db) && Alone(db, i) && NotWarmed(db.filesets[i], a)
    ensures StaysAlone(db, Step(cfg, db, a).0, i)
  {
    match a
    case DoEvent(event, now, store) => EventLeavesAlone(cfg, db, event, now, store, i);
    case DoReconcile(id, task, now) =>
      if id in db.transfers && InFlight(db.transfers[id].state) { ReconcileLeavesAlone(cfg, db, id, task, now, i); }
    case DoWarm(_, _, _, _) => WarmLeavesAlone(cfg, db, a, i);
    case DoFlush(owner, flush, now, charged) => FlushLeavesAlone(cfg, db, owner, flush, now, charged, i);
    case DoSchedule(now, answers) => ScheduleLeavesAlone(cfg, db, now, answers, i);
    case DoCancel(id, now) => CancelLeavesAlone(cfg, db, id, now, i);
    case DoRelease(owner, storage, name, discard, now, deleted) =>
      ReleaseCallLeavesAlone(db, owner, storage, name, discard, now, deleted, i);
    case DoPrune(now) =>
    case _ => FilesetCallLeavesAlone(cfg, db, a, i);
  }

  lemma {:induction false} AloneThrough(cfg: Cluster, db: Database, run: seq<Action>, i: nat)
    requires Sound(cfg, db) && Alone(db, i)
    requires forall k :: 0 <= k < |run| ==> NotWarmed(db.filesets[i], run[k])
    ensures StaysAlone(db, After(cfg, db, run), i)
  {
    if run != [] {
      var n := |run| - 1;
      AloneThrough(cfg, db, run[..n], i);
      RunsAreSound(cfg, db, run[..n]);
      StepLeavesAlone(cfg, After(cfg, db, run[..n]), run[n], i);
    }
  }

  /** In any state a run can reach, a live reservation can be given back without warming into its fileset if and only if
      the fileset is not an orphan: one still being created with no transfer at work on it. */
  lemma FreeableIff(cfg: Cluster, run: seq<Action>, i: nat)
    requires i in After(cfg, EMPTY, run).filesets && Live(After(cfg, EMPTY, run).filesets[i])
    ensures CanBeFreed(cfg, After(cfg, EMPTY, run), i) <==> !Orphaned(After(cfg, EMPTY, run), i)
  {
    var db := After(cfg, EMPTY, run);
    AlwaysTended(cfg, run);
    if Orphaned(db, i) {
      OrphansAreAlone(db, i);
      forall more | forall k :: 0 <= k < |more| ==> NotWarmed(db.filesets[i], more[k])
        ensures !Frees(cfg, db, more, i)
      {
        AloneThrough(cfg, db, more, i);
      }
    } else {
      var more := FreesInTwo(cfg, db, i);
    }
  }

  /** A create that was cut short after its reservation was committed leaves an orphan. */
  lemma InterruptedCreateOrphans(cfg: Cluster, db: Database, a: Action)
    requires Linked(db) && a.DoCreate? && Step(cfg, db, a).1 == Raised(Interrupted)
    ensures var after := Step(cfg, db, a).0;
      db.nextFileset in after.filesets && after.filesets[db.nextFileset].allocatedBytes == a.size
        && Orphaned(after, db.nextFileset)
  {
    CreateReserves(cfg, db, a);
  }
}
