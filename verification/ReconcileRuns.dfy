/** What a reconcile pass reaches, and what stops it. */
module ReconcileRuns {
  import opened Options
  import opened Transfers
  import opened Tables
  import opened Events
  import opened Reconciling
  import opened Runs
  import opened FilesetRuns
  import opened RowRuns
  import SchedulerLoop
  import FS = Filesets

  /** Running, with no task a daemon could be asked about. */
  predicate Stuck(t: Transfer) {
    t.state == Running && t.taskId.None?
  }

  ghost predicate DistinctRows(rows: seq<(nat, TaskAnswer)>) {
    forall j, k :: 0 <= j < k < |rows| ==> rows[j].0 != rows[k].0
  }

  /** A pass takes up every row in flight, once. */
  lemma {:induction false} RowsTakenUp(transfers: map<nat, Transfer>, tasks: map<nat, TaskAnswer>, n: nat)
    ensures var rows := InFlightRows(transfers, tasks, n);
      && DistinctRows(rows)
      && (forall k ::
            0 <= k < |rows| ==> rows[k].0 < n && rows[k].0 in transfers && InFlight(transfers[rows[k].0].state)
                                          && rows[k].1 == (if rows[k].0 in tasks then tasks[rows[k].0]
                                                           else Unreachable("")))
      && (forall i :: i in transfers && i < n && InFlight(transfers[i].state) ==> exists k ::
            0 <= k < |rows| && rows[k].0 == i)
  {
    if n > 0 {
      RowsTakenUp(transfers, tasks, n - 1);
      var before, rows := InFlightRows(transfers, tasks, n - 1), InFlightRows(transfers, tasks, n);
      forall i | i in transfers && i < n && InFlight(transfers[i].state)
        ensures exists k :: 0 <= k < |rows| && rows[k].0 == i {
        if i == n - 1 {
          assert rows[|before|].0 == i;
        } else {
          var k :| 0 <= k < |before| && before[k].0 == i;
          assert rows[k].0 == i;
        }
      }
    }
  }

  lemma OtherRowsStay(cfg: Cluster, db: Database, id: nat, answer: TaskAnswer, now: int, other: nat)
    requires other != id && other in db.transfers
    ensures var after := ReconcileOne(cfg, db, id, answer, now).0;
      other in after.transfers && after.transfers[other] == db.transfers[other]
  {
  }

  lemma {:induction false} StuckStays(cfg: Cluster, db: Database, rows: seq<(nat, TaskAnswer)>, i: nat, now: int)
    requires i in db.transfers && forall k :: 0 <= k < |rows| ==> rows[k].0 != i
    ensures var after := Reconcile(cfg, db, rows, now).0;
      i in after.transfers && after.transfers[i] == db.transfers[i]
  {
    if rows != [] {
      var n := |rows| - 1;
      var before := Reconcile(cfg, db, rows[..n], now);
      StuckStays(cfg, db, rows[..n], i, now);
      if !before.1.Raised? { OtherRowsStay(cfg, before.0, rows[n].0, rows[n].1, now, i); }
    }
  }

  lemma StuckRaises(cfg: Cluster, db: Database, id: nat, answer: TaskAnswer, now: int)
    requires id in db.transfers && Stuck(db.transfers[id])
    ensures ReconcileOne(cfg, db, id, answer, now) == (db, Raised(InvalidTransition))
  {
  }

  /** The pass has raised by the time it is past a stuck row. */
  lemma RaisedByThen(cfg: Cluster, db: Database, rows: seq<(nat, TaskAnswer)>, k: nat, now: int)
    requires DistinctRows(rows) && k < |rows| && rows[k].0 in db.transfers && Stuck(db.transfers[rows[k].0])
    ensures Reconcile(cfg, db, rows[..k + 1], now).1.Raised?
  {
    var before := Reconcile(cfg, db, rows[..k], now);
    StuckStays(cfg, db, rows[..k], rows[k].0, now);
    assert rows[..k + 1][..k] == rows[..k];
    if before.1.Raised? {
      RaisingEndsThePass(cfg, db, rows[..k + 1], k, now);
    } else {
      OneRowMore(cfg, db, rows, k, now);
      StuckRaises(cfg, before.0, rows[k].0, rows[k].1, now);
    }
  }

  /** Whatever the daemons say, a pass raises at the latest at the first stuck row: the rows
      behind it are not looked at. */
  lemma StuckEndsThePass(cfg: Cluster, db: Database, rows: seq<(nat, TaskAnswer)>, k: nat, now: int)
    requires DistinctRows(rows) && k < |rows| && rows[k].0 in db.transfers && Stuck(db.transfers[rows[k].0])
    ensures Reconcile(cfg, db, rows, now).1.Raised?
    ensures Reconcile(cfg, db, rows, now) == Reconcile(cfg, db, rows[..k + 1], now)
  {
    RaisedByThen(cfg, db, rows, k, now);
    RaisingEndsThePass(cfg, db, rows, k + 1, now);
  }

  // ---- When a row ends the pass ----

  /** The daemon says the work is done. */
  predicate SaysDone(answer: TaskAnswer) {
    answer.Found? && answer.state == TaskSucceeded
  }

  /** It says the work failed or was cancelled, or has not been reached for as long as is allowed. */
  predicate SaysFailed(cfg: Cluster, t: Transfer, answer: TaskAnswer, now: int) {
    match answer
    case Found(state, _, _, _, _) => state in {TaskFailed, TaskCancelled}
    case Unreachable(_) => now - t.startedAt.GetOr(t.submittedAt) >= cfg.unreachableAfter
  }

  function FailureOf(answer: TaskAnswer): Option<string> {
    if answer.Found? then answer.failure else Some("daemon_unreachable")
  }

  function BytesOf(answer: TaskAnswer): int {
    if answer.Found? then answer.bytesDone else 0
  }

  /** What stands in the way of one row of a pass, given the state its fileset is in when the row is reached: there is
      no task to ask about; the work is done but never known to have started; the fileset cannot become READY, or cannot
      become FAILED; there are bytes where none were measured; or the use to record is negative. */
  predicate Blocked(cfg: Cluster, t: Transfer, state: FS.FilesetState, answer: TaskAnswer, now: int) {
    || t.taskId.None?
    || ((SaysDone(answer) || SaysFailed(cfg, t, answer, now)) && BytesOf(answer) > 0 && t.bytesTotal == 0)
    || (SaysDone(answer) && (|| t.state == Assigned
                             || state in {FS.Ready, FS.Releasing, FS.Failed, FS.Released}
                             || (t.kind != Flush && (if BytesOf(answer) != 0
                                                     then BytesOf(answer) else t.bytesDone) < 0)))
    || (SaysFailed(cfg, t, answer, now) && state in {FS.Failed, FS.Released}
        && !Retries(cfg, t.attempt, FailureOf(answer)))
  }

  /** The state the fileset of a row that is not blocked is left in. */
  function LeftIn(cfg: Cluster, t: Transfer, state: FS.FilesetState, answer: TaskAnswer, now: int): FS.FilesetState {
    if SaysDone(answer) then FS.Ready
    else if SaysFailed(cfg, t, answer, now) && !Retries(cfg, t.attempt, FailureOf(answer)) then FS.Failed
    else state
  }

  ghost predicate Reachable(cfg: Cluster, db: Database, id: nat) {
    && id in db.transfers && InFlight(db.transfers[id].state) && RowOk(cfg, db.transfers[id])
    && db.transfers[id].filesetId in db.filesets
  }

  lemma NoTaskRaises(cfg: Cluster, db: Database, id: nat, answer: TaskAnswer, now: int)
    requires Reachable(cfg, db, id) && db.transfers[id].taskId.None?
    ensures ReconcileOne(cfg, db, id, answer, now) == (db, Raised(InvalidTransition))
  {
  }

  /** Bringing a row up to date raises if and only if the row is blocked, whatever the daemon answers. */
  lemma RaisesIff(cfg: Cluster, db: Database, id: nat, answer: TaskAnswer, now: int)
    requires Reachable(cfg, db, id)
    ensures var t := db.transfers[id];
      ReconcileOne(cfg, db, id, answer, now).1.Raised? <==> Blocked(cfg, t, db.filesets[t.filesetId].state, answer, now)
  {
    var t := db.transfers[id];
    if t.taskId.None? {
      NoTaskRaises(cfg, db, id, answer, now);
    } else if SaysDone(answer) || SaysFailed(cfg, t, answer, now) {
      var e := TaskEvent(cfg, id, t, answer, now).value;
      assert Objection(cfg, db, e) != Some(Ignored);
      assert ReconcileOne(cfg, db, id, answer, now).1.Raised? <==> Objection(cfg, db, e).Some?;
      StoredIff(t, e);
    }
  }

  /** What a pass concludes about a row in flight is never taken for old news: the row is blocked, and all is left as it
      was, or it is no longer in flight. */
  lemma AdoptionSettles(cfg: Cluster, db: Database, id: nat, answer: TaskAnswer, now: int)
    requires Reachable(cfg, db, id) && (SaysDone(answer) || SaysFailed(cfg, db.transfers[id], answer, now))
    ensures var r, t := ReconcileOne(cfg, db, id, answer, now), db.transfers[id];
      if Blocked(cfg, t, db.filesets[t.filesetId].state, answer, now) then r.0 == db && r.1.Raised?
      else r.1 == Done && id in r.0.transfers && !InFlight(r.0.transfers[id].state)
  {
    RaisesIff(cfg, db, id, answer, now);
    if db.transfers[id].taskId.Some? {
      var e := TaskEvent(cfg, id, db.transfers[id], answer, now).value;
      assert e.sequence > db.transfers[id].lastSequence && e.kind in {Finished, FailedEvent} && e.transferId == id;
      assert ApplyEvent(cfg, db, e, now, None).1 != Ignored;
    } else {
      NoTaskRaises(cfg, db, id, answer, now);
    }
  }

  lemma StoredIff(t: Transfer, e: Event)
    requires t.bytesDone <= t.bytesTotal
    ensures Storable(Progressed(t, e), e)
       <==> && (e.bytesDone <= 0 || t.bytesTotal > 0)
            && (e.kind == Finished && t.kind != Flush ==> (if e.bytesDone != 0 then e.bytesDone else t.bytesDone) >= 0)
  {
  }

  function States(filesets: map<nat, Fileset>): map<nat, FS.FilesetState> {
    map f | f in filesets :: filesets[f].state
  }

  lemma AcceptedStates(cfg: Cluster, db: Database, e: Event, now: int)
    requires Objection(cfg, db, e).None? && e.kind in {Finished, FailedEvent}
    ensures var after, t := Accepted(cfg, db, e, now), db.transfers[e.transferId];
      && after.transfers == db.transfers[e.transferId := after.transfers[e.transferId]]
      && States(after.filesets) == States(db.filesets)[t.filesetId :=
           if e.kind == Finished then FS.Ready
           else if Retries(cfg, t.attempt, e.failure) then db.filesets[t.filesetId].state
           else FS.Failed]
  {
  }

  /** A row that is not blocked leaves every other row as it was, and of the filesets' states moves only its own. */
  lemma UnblockedMoves(cfg: Cluster, db: Database, id: nat, answer: TaskAnswer, now: int)
    requires Reachable(cfg, db, id) && !ReconcileOne(cfg, db, id, answer, now).1.Raised?
    ensures var after, t := ReconcileOne(cfg, db, id, answer, now).0, db.transfers[id];
      && (forall i :: i in db.transfers && i != id ==> i in after.transfers && after.transfers[i] == db.transfers[i])
      && States(after.filesets)
           == States(db.filesets)[t.filesetId := LeftIn(cfg, t, db.filesets[t.filesetId].state, answer, now)]
  {
    var t := db.transfers[id];
    if t.taskId.None? {
      NoTaskRaises(cfg, db, id, answer, now);
    } else {
      var e := TaskEvent(cfg, id, t, answer, now);
      if e.Some? {
        assert Objection(cfg, db, e.value).None?;
        AcceptedStates(cfg, db, e.value, now);
        assert ReconcileOne(cfg, db, id, answer, now).0 == Accepted(cfg, db, e.value, now);
      }
    }
  }

  /** The states the first rows of a pass leave the filesets in, foreseen from the tables as the pass begins and from
      what the daemons will answer. */
  function Foreseen(cfg: Cluster, db: Database, rows: seq<(nat, TaskAnswer)>,
                    now: int): (states: map<nat, FS.FilesetState>)
    requires forall k ::
      0 <= k < |rows| ==> rows[k].0 in db.transfers && db.transfers[rows[k].0].filesetId in db.filesets
    ensures states.Keys == db.filesets.Keys
  {
    if rows == [] then States(db.filesets)
    else
      var n := |rows| - 1;
      var states, t := Foreseen(cfg, db, rows[..n], now), db.transfers[rows[n].0];
      states[t.filesetId := LeftIn(cfg, t, states[t.filesetId], rows[n].1, now)]
  }

  /** Row k finds something in its way once the rows before it are done. */
  predicate BlockedAt(cfg: Cluster, db: Database, rows: seq<(nat, TaskAnswer)>, k: nat, now: int)
    requires k < |rows|
    requires forall j ::
      0 <= j < |rows| ==> rows[j].0 in db.transfers && db.transfers[rows[j].0].filesetId in db.filesets
  {
    var t := db.transfers[rows[k].0];
    Blocked(cfg, t, Foreseen(cfg, db, rows[..k], now)[t.filesetId], rows[k].1, now)
  }

  ghost predicate RowsReachable(cfg: Cluster, db: Database, rows: seq<(nat, TaskAnswer)>) {
    DistinctRows(rows) && forall k :: 0 <= k < |rows| ==> Reachable(cfg, db, rows[k].0)
  }

  /** How far a pass has come while no row has been blocked. */
  ghost predicate Through(cfg: Cluster, db: Database, rows: seq<(nat, TaskAnswer)>, k: nat, now: int)
    requires k <= |rows| && RowsReachable(cfg, db, rows)
  {
    var r := Reconcile(cfg, db, rows[..k], now);
    && r.1 == Done
    && States(r.0.filesets) == Foreseen(cfg, db, rows[..k], now)
    && forall j :: k <= j < |rows| ==> rows[j].0 in r.0.transfers && r.0.transfers[rows[j].0] == db.transfers[rows[j].0]
  }

  lemma NextRowRaises(cfg: Cluster, db: Database, rows: seq<(nat, TaskAnswer)>, k: nat, now: int, before: Database,
                      one: (Database, Verdict))
    requires k < |rows| && Reconcile(cfg, db, rows[..k], now).0 == before
      && Reconcile(cfg, db, rows[..k], now).1 == Done
    requires one == ReconcileOne(cfg, before, rows[k].0, rows[k].1, now)
    ensures Reconcile(cfg, db, rows[..k + 1], now).0 == one.0
    ensures Reconcile(cfg, db, rows[..k + 1], now).1 == if one.1.Raised? then one.1 else Done
  {
    OneRowMore(cfg, db, rows, k, now);
  }

  lemma ForeseenNext(cfg: Cluster, db: Database, rows: seq<(nat, TaskAnswer)>, k: nat, now: int)
    requires k < |rows| && RowsReachable(cfg, db, rows)
    ensures var states, t := Foreseen(cfg, db, rows[..k], now), db.transfers[rows[k].0];
      Foreseen(cfg, db, rows[..k + 1], now)
        == states[t.filesetId := LeftIn(cfg, t, states[t.filesetId], rows[k].1, now)]
  {
    assert rows[..k + 1][..k] == rows[..k];
  }

  /** The row as it is reached is the row as the pass began, and its fileset is in the state foreseen. */
  lemma ReachedAsForeseen(cfg: Cluster, db: Database, rows: seq<(nat, TaskAnswer)>, k: nat, now: int)
    requires k < |rows| && RowsReachable(cfg, db, rows) && Through(cfg, db, rows, k, now)
    ensures var before, t := Reconcile(cfg, db, rows[..k], now).0, db.transfers[rows[k].0];
      && Reachable(cfg, before, rows[k].0) && before.transfers[rows[k].0] == t
      && States(before.filesets)[t.filesetId] == before.filesets[t.filesetId].state
           == Foreseen(cfg, db, rows[..k], now)[t.filesetId]
  {
    var before := Reconcile(cfg, db, rows[..k], now).0;
    assert db.transfers[rows[k].0].filesetId in States(before.filesets);
  }

  lemma NextRow(cfg: Cluster, db: Database, rows: seq<(nat, TaskAnswer)>, k: nat, now: int)
    requires k < |rows| && RowsReachable(cfg, db, rows) && Through(cfg, db, rows, k, now)
    ensures BlockedAt(cfg, db, rows, k, now) ==> Reconcile(cfg, db, rows[..k + 1], now).1.Raised?
    ensures !BlockedAt(cfg, db, rows, k, now) ==> Through(cfg, db, rows, k + 1, now)
  {
    var before := Reconcile(cfg, db, rows[..k], now).0;
    var id, answer := rows[k].0, rows[k].1;
    ReachedAsForeseen(cfg, db, rows, k, now);
    RaisesIff(cfg, before, id, answer, now);
    NextRowRaises(cfg, db, rows, k, now, before, ReconcileOne(cfg, before, id, answer, now));
    if !BlockedAt(cfg, db, rows, k, now) {
      UnblockedMoves(cfg, before, id, answer, now);
      ForeseenNext(cfg, db, rows, k, now);
    }
  }

  lemma ThroughNone(cfg: Cluster, db: Database, rows: seq<(nat, TaskAnswer)>, now: int)
    requires RowsReachable(cfg, db, rows)
    ensures Through(cfg, db, rows, 0, now)
  {
    assert rows[..0] == [];
  }

  lemma StaysRaised(cfg: Cluster, db: Database, rows: seq<(nat, TaskAnswer)>, k: nat, now: int)
    requires k < |rows| && Reconcile(cfg, db, rows[..k], now).1.Raised?
    ensures Reconcile(cfg, db, rows[..k + 1], now).1.Raised?
  {
    assert rows[..k + 1][..k] == rows[..k];
  }

  /** None of the first k rows is blocked as it is reached. */
  ghost predicate Clear(cfg: Cluster, db: Database, rows: seq<(nat, TaskAnswer)>, k: nat, now: int)
    requires k <= |rows| && RowsReachable(cfg, db, rows)
  {
    forall j :: 0 <= j < k ==> !BlockedAt(cfg, db, rows, j, now)
  }

  lemma ClearFurther(cfg: Cluster, db: Database, rows: seq<(nat, TaskAnswer)>, k: nat, now: int)
    requires k < |rows| && RowsReachable(cfg, db, rows)
    ensures Clear(cfg, db, rows, k + 1, now) <==> Clear(cfg, db, rows, k, now) && !BlockedAt(cfg, db, rows, k, now)
  {
  }

  lemma {:induction false} ThroughOrRaised(cfg: Cluster, db: Database, rows: seq<(nat, TaskAnswer)>, k: nat, now: int)
    requires k <= |rows| && RowsReachable(cfg, db, rows)
    ensures if Clear(cfg, db, rows, k, now) then Through(cfg, db, rows, k, now)
      else Reconcile(cfg, db, rows[..k], now).1.Raised?
  {
    if k == 0 {
      ThroughNone(cfg, db, rows, now);
    } else {
      ThroughOrRaised(cfg, db, rows, k - 1, now);
      ClearFurther(cfg, db, rows, k - 1, now);
      if Clear(cfg, db, rows, k - 1, now) {
        NextRow(cfg, db, rows, k - 1, now);
      } else {
        StaysRaised(cfg, db, rows, k - 1, now);
      }
    }
  }

  /** Whatever the daemons answer, a pass comes to its end if and only if no row is blocked as it is reached. */
  lemma PassEndsIff(cfg: Cluster, db: Database, tasks: map<nat, TaskAnswer>, now: int)
    requires Sound(cfg, db)
    ensures var rows := InFlightRows(db.transfers, tasks, db.nextTransfer);
      && RowsReachable(cfg, db, rows)
      && (Reconcile(cfg, db, rows, now).1 == Done <==> Clear(cfg, db, rows, |rows|, now))
  {
    var rows := InFlightRows(db.transfers, tasks, db.nextTransfer);
    RowsTakenUp(db.transfers, tasks, db.nextTransfer);
    ThroughOrRaised(cfg, db, rows, |rows|, now);
    assert rows[..|rows|] == rows;
  }

  ghost predicate FilesetsApart(db: Database, rows: seq<(nat, TaskAnswer)>) {
    forall j, k :: 0 <= j < k < |rows| && rows[j].0 in db.transfers && rows[k].0 in db.transfers
      ==> db.transfers[rows[j].0].filesetId != db.transfers[rows[k].0].filesetId
  }

  lemma {:induction false} ForeseenApart(cfg: Cluster, db: Database, rows: seq<(nat, TaskAnswer)>, k: nat,
                                         now: int, f: nat)
    requires k <= |rows| && RowsReachable(cfg, db, rows) && f in db.filesets
    requires forall j :: 0 <= j < k ==> db.transfers[rows[j].0].filesetId != f
    ensures Foreseen(cfg, db, rows[..k], now)[f] == db.filesets[f].state
  {
    if k > 0 {
      assert rows[..k][..k - 1] == rows[..k - 1];
      ForeseenApart(cfg, db, rows, k - 1, now, f);
    }
  }

  /** Where no two rows in flight share a fileset, each can be judged by the tables as the pass begins. */
  lemma PassEndsIffApart(cfg: Cluster, db: Database, tasks: map<nat, TaskAnswer>, now: int)
    requires Sound(cfg, db) && FilesetsApart(db, InFlightRows(db.transfers, tasks, db.nextTransfer))
    ensures var rows := InFlightRows(db.transfers, tasks, db.nextTransfer);
      && RowsReachable(cfg, db, rows)
      && (Reconcile(cfg, db, rows, now).1 == Done
          <==> forall k :: 0 <= k < |rows| ==>
                 !Blocked(cfg, db.transfers[rows[k].0], db.filesets[db.transfers[rows[k].0].filesetId].state,
                          rows[k].1, now))
  {
    var rows := InFlightRows(db.transfers, tasks, db.nextTransfer);
    PassEndsIff(cfg, db, tasks, now);
    forall k | 0 <= k < |rows| ensures BlockedAt(cfg, db, rows, k, now)
      <==> Blocked(cfg, db.transfers[rows[k].0], db.filesets[db.transfers[rows[k].0].filesetId].state, rows[k].1, now) {
      ForeseenApart(cfg, db, rows, k, now, db.transfers[rows[k].0].filesetId);
    }
  }

  /** Whatever the daemons answer, a blocked row keeps a pass from its end. */
  lemma BlockedEndsThePass(cfg: Cluster, db: Database, tasks: map<nat, TaskAnswer>, now: int, k: nat)
    requires Sound(cfg, db) && k < |InFlightRows(db.transfers, tasks, db.nextTransfer)|
    requires RowsReachable(cfg, db, InFlightRows(db.transfers, tasks, db.nextTransfer))
    requires BlockedAt(cfg, db, InFlightRows(db.transfers, tasks, db.nextTransfer), k, now)
    ensures Reconcile(cfg, db, InFlightRows(db.transfers, tasks, db.nextTransfer), now).1.Raised?
  {
    var rows := InFlightRows(db.transfers, tasks, db.nextTransfer);
    ThroughOrRaised(cfg, db, rows, |rows|, now);
    assert rows[..|rows|] == rows;
  }

  /** A transfer whose first events were lost and whose daemon has meanwhile finished it ends every pass: it is still
      ASSIGNED, and from there nothing succeeds. */
  lemma LostStartEndsThePass(cfg: Cluster, db: Database, tasks: map<nat, TaskAnswer>, now: int, id: nat)
    requires Sound(cfg, db) && id in db.transfers && db.transfers[id].state == Assigned
    requires id in tasks && SaysDone(tasks[id])
    ensures Reconcile(cfg, db, InFlightRows(db.transfers, tasks, db.nextTransfer), now).1.Raised?
  {
    var rows := InFlightRows(db.transfers, tasks, db.nextTransfer);
    RowsTakenUp(db.transfers, tasks, db.nextTransfer);
    var k :| 0 <= k < |rows| && rows[k].0 == id;
    PassEndsIff(cfg, db, tasks, now);
    BlockedEndsThePass(cfg, db, tasks, now, k);
  }

  // ---- What a pass returns ----

  /** The rows among the first k that are no longer in flight. */
  function OutOfFlight(rows: seq<(nat, TaskAnswer)>, transfers: map<nat, Transfer>, k: nat): set<nat>
    requires k <= |rows|
  {
    set j | 0 <= j < k && rows[j].0 in transfers && !InFlight(transfers[rows[j].0].state)
  }

  lemma OneRowCounts(cfg: Cluster, db: Database, id: nat, answer: TaskAnswer, now: int)
    requires Reachable(cfg, db, id) && !ReconcileOne(cfg, db, id, answer, now).1.Raised?
    ensures var r := ReconcileOne(cfg, db, id, answer, now);
      id in r.0.transfers && (r.1 == Done <==> !InFlight(r.0.transfers[id].state))
  {
    if SaysDone(answer) || SaysFailed(cfg, db.transfers[id], answer, now) {
      AdoptionSettles(cfg, db, id, answer, now);
      RaisesIff(cfg, db, id, answer, now);
    } else if db.transfers[id].taskId.None? {
      NoTaskRaises(cfg, db, id, answer, now);
    }
  }

  lemma OneMoreOut(rows: seq<(nat, TaskAnswer)>, before: map<nat, Transfer>, after: map<nat, Transfer>, k: nat)
    requires k < |rows| && DistinctRows(rows) && rows[k].0 in after
    requires forall i :: i in before && i != rows[k].0 ==> i in after && after[i] == before[i]
    requires forall j :: 0 <= j < k ==> rows[j].0 in before
    ensures |OutOfFlight(rows, after, k + 1)|
         == |OutOfFlight(rows, before, k)| + (if InFlight(after[rows[k].0].state) then 0 else 1)
  {
    forall j | 0 <= j < k ensures rows[j].0 != rows[k].0 {}
    assert OutOfFlight(rows, after, k + 1)
      == OutOfFlight(rows, before, k) + (if InFlight(after[rows[k].0].state) then {} else {k});
  }

  lemma {:induction false} CountedSoFar(cfg: Cluster, db: Database, rows: seq<(nat, TaskAnswer)>, k: nat, now: int)
    requires k <= |rows| && RowsReachable(cfg, db, rows) && Clear(cfg, db, rows, k, now)
    ensures var r := Reconcile(cfg, db, rows[..k], now);
      && (forall j :: 0 <= j < |rows| ==> rows[j].0 in r.0.transfers)
      && r.2 == |OutOfFlight(rows, r.0.transfers, k)|
  {
    if k == 0 {
      assert rows[..0] == [];
      assert OutOfFlight(rows, db.transfers, 0) == {};
    } else {
      CountedSoFar(cfg, db, rows, k - 1, now);
      ThroughOrRaised(cfg, db, rows, k - 1, now);
      ThroughOrRaised(cfg, db, rows, k, now);
      ReachedAsForeseen(cfg, db, rows, k - 1, now);
      OneRowMore(cfg, db, rows, k - 1, now);
      var before := Reconcile(cfg, db, rows[..k - 1], now).0;
      OneRowCounts(cfg, before, rows[k - 1].0, rows[k - 1].1, now);
      UnblockedMoves(cfg, before, rows[k - 1].0, rows[k - 1].1, now);
      OneMoreOut(rows, before.transfers, Reconcile(cfg, db, rows[..k], now).0.transfers, k - 1);
    }
  }

  /** A pass that comes to its end returns how many of the rows it took up it has taken out of flight. */
  lemma PassCountsSettled(cfg: Cluster, db: Database, tasks: map<nat, TaskAnswer>, now: int)
    requires Sound(cfg, db)
    ensures var rows := InFlightRows(db.transfers, tasks, db.nextTransfer);
      var r := Reconcile(cfg, db, rows, now);
      r.1 == Done ==> r.2 == |OutOfFlight(rows, r.0.transfers, |rows|)|
  {
    var rows := InFlightRows(db.transfers, tasks, db.nextTransfer);
    PassEndsIff(cfg, db, tasks, now);
    assert rows[..|rows|] == rows;
    if Reconcile(cfg, db, rows, now).1 == Done { CountedSoFar(cfg, db, rows, |rows|, now); }
  }

  // ---- A release that was cut short ----

  /** The action neither cancels the transfer nor reports on it. */
  predicate LeavesAlone(a: Action, id: nat) {
    && (a.DoCancel? ==> a.id != id)
    && (a.DoEvent? ==> a.event.transferId != id)
  }

  /** Nothing but a cancel or a report of it moves a stuck row. */
  lemma StepLeavesStuck(cfg: Cluster, db: Database, a: Action, id: nat)
    requires Sound(cfg, db) && id in db.transfers && Stuck(db.transfers[id]) && LeavesAlone(a, id)
    ensures var after := Step(cfg, db, a).0;
      id in after.transfers && after.transfers[id] == db.transfers[id]
  {
    StepMovesTable(cfg, db, a);
    if a.DoSchedule? {
      PassKeeps(db.transfers, SchedulerLoop.Planned(cfg, db, a.now).plan, a.answers, id);
    } else if Touches(a, id) {
      StuckRaises(cfg, db, id, a.task, a.now);
    } else {
      UntouchedStays(cfg, db, a, id);
    }
  }

  lemma {:induction false} StuckThrough(cfg: Cluster, db: Database, run: seq<Action>, id: nat)
    requires Sound(cfg, db) && id in db.transfers && Stuck(db.transfers[id])
    requires forall k :: 0 <= k < |run| ==> LeavesAlone(run[k], id)
    ensures var after := After(cfg, db, run);
      id in after.transfers && after.transfers[id] == db.transfers[id]
  {
    if run != [] {
      var n := |run| - 1;
      StuckThrough(cfg, db, run[..n], id);
      RunsAreSound(cfg, db, run[..n]);
      StepLeavesStuck(cfg, After(cfg, db, run[..n]), run[n], id);
    }
  }

  lemma StuckStopsPasses(cfg: Cluster, db: Database, tasks: map<nat, TaskAnswer>, now: int, id: nat)
    requires Linked(db) && id in db.transfers && Stuck(db.transfers[id])
    ensures Reconcile(cfg, db, InFlightRows(db.transfers, tasks, db.nextTransfer), now).1.Raised?
  {
    var rows := InFlightRows(db.transfers, tasks, db.nextTransfer);
    RowsTakenUp(db.transfers, tasks, db.nextTransfer);
    var k :| 0 <= k < |rows| && rows[k].0 == id;
    StuckEndsThePass(cfg, db, rows, k, now);
  }

  lemma LeavesStuck(cfg: Cluster, db: Database, a: Action)
    requires a.DoRelease? && Step(cfg, db, a).1 == Raised(Interrupted)
    ensures var after := Step(cfg, db, a).0;
      db.nextTransfer in after.transfers && Stuck(after.transfers[db.nextTransfer])
  {
  }

  /** A release cut short before its daemon answered leaves a row without a task, and through every run that neither
      cancels it nor reports on it the row stays as it is and every pass raises, whatever the daemons say. */
  lemma InterruptedReleaseStopsPasses(cfg: Cluster, db: Database, a: Action, run: seq<Action>,
                                      tasks: map<nat, TaskAnswer>, now: int)
    requires Sound(cfg, db) && a.DoRelease? && Step(cfg, db, a).1 == Raised(Interrupted)
    requires forall k :: 0 <= k < |run| ==> LeavesAlone(run[k], db.nextTransfer)
    ensures var after := After(cfg, Step(cfg, db, a).0, run);
      && db.nextTransfer in after.transfers && Stuck(after.transfers[db.nextTransfer])
      && Reconcile(cfg, after, InFlightRows(after.transfers, tasks, after.nextTransfer), now).1.Raised?
  {
    LeavesStuck(cfg, db, a);
    StepKeepsSound(cfg, db, a);
    StuckThrough(cfg, Step(cfg, db, a).0, run, db.nextTransfer);
    RunsAreSound(cfg, Step(cfg, db, a).0, run);
    StuckStopsPasses(cfg, After(cfg, Step(cfg, db, a).0, run), tasks, now, db.nextTransfer);
  }
}
