/** How often a transfer can be handed to a daemon, and why it cannot go on for ever. */
module AttemptRuns {
  import opened Options
  import opened Transfers
  import opened Tables
  import opened Releases
  import opened Events
  import opened Runs
  import opened FilesetRuns

  /** Attempts left, then how far the current one has still to go. */
  function Remaining(cfg: Cluster, t: Transfer): (int, int) {
    (cfg.retryCount + 1 - t.attempt, 3 - Rank(t.state))
  }

  predicate Falls(before: (int, int), after: (int, int)) {
    after.0 < before.0 || (after.0 == before.0 && after.1 < before.1)
  }

  /** Every step that changes the state of a row, or starts it over, brings it nearer its end. */
  lemma StateChangesFall(cfg: Cluster, db: Database, a: Action, i: nat)
    requires Sound(cfg, db) && i in db.transfers && i in Step(cfg, db, a).0.transfers
    ensures var t, u := db.transfers[i], Step(cfg, db, a).0.transfers[i];
      && Remaining(cfg, u).0 >= 0 && Remaining(cfg, u).1 >= 0
      && (u.state != t.state || u.attempt != t.attempt ==> Falls(Remaining(cfg, t), Remaining(cfg, u)))
  {
    StepMovesTable(cfg, db, a);
    StepKeepsSound(cfg, db, a);
    assert RowMoves(cfg, db.transfers[i], Step(cfg, db, a).0.transfers[i], a.DoSchedule?);
    assert RowOk(cfg, Step(cfg, db, a).0.transfers[i]);
  }

  ghost predicate IsAssigned(db: Database, i: nat) {
    i in db.transfers && db.transfers[i].state == Assigned
  }

  /** The steps of a run that bring a row to ASSIGNED. */
  ghost function Handovers(cfg: Cluster, db: Database, run: seq<Action>, i: nat): nat {
    if run == [] then 0
    else
      var n := |run| - 1;
      Handovers(cfg, db, run[..n], i)
      + (if IsAssigned(After(cfg, db, run), i) && !IsAssigned(After(cfg, db, run[..n]), i) then 1 else 0)
  }

  /** What the handovers so far leave of the budget, whether the row is there, gone or still to come. */
  ghost predicate WithinBudget(cfg: Cluster, db: Database, i: nat, handovers: nat) {
    if i in db.transfers
    then handovers <= db.transfers[i].attempt - (if db.transfers[i].state == Submitted then 1 else 0)
    else if i >= db.nextTransfer then handovers == 0
    else handovers <= cfg.retryCount + 1
  }

  /** A row that moves as rows do stays within its budget. */
  lemma MovesKeepBudget(cfg: Cluster, db: Database, db': Database, scheduling: bool, i: nat, handovers: nat)
    requires Sound(cfg, db) && TableMoves(cfg, db, db', scheduling) && WithinBudget(cfg, db, i, handovers)
    ensures WithinBudget(cfg, db', i, handovers + (if IsAssigned(db', i) && !IsAssigned(db, i) then 1 else 0))
  {
    if i in db.transfers {
      assert RowOk(cfg, db.transfers[i]);
      if i in db'.transfers { assert RowMoves(cfg, db.transfers[i], db'.transfers[i], scheduling); }
    }
  }

  lemma StepKeepsBudget(cfg: Cluster, db: Database, a: Action, i: nat, handovers: nat)
    requires Sound(cfg, db) && WithinBudget(cfg, db, i, handovers)
    ensures var db' := Step(cfg, db, a).0;
      WithinBudget(cfg, db', i, handovers + (if IsAssigned(db', i) && !IsAssigned(db, i) then 1 else 0))
  {
    StepMovesTable(cfg, db, a);
    MovesKeepBudget(cfg, db, Step(cfg, db, a).0, a.DoSchedule?, i, handovers);
  }

  lemma {:induction false} BudgetOverRun(cfg: Cluster, run: seq<Action>, i: nat)
    ensures Sound(cfg, After(cfg, EMPTY, run))
    ensures WithinBudget(cfg, After(cfg, EMPTY, run), i, Handovers(cfg, EMPTY, run, i))
  {
    EmptyIsSound(cfg);
    RunsAreSound(cfg, EMPTY, run);
    if run != [] {
      BudgetOverRun(cfg, run[..|run| - 1], i);
      StepKeepsBudget(cfg, After(cfg, EMPTY, run[..|run| - 1]), run[|run| - 1], i,
                      Handovers(cfg, EMPTY, run[..|run| - 1], i));
    }
  }

  /** Over any run a transfer reaches ASSIGNED at most retries.count + 1 times. */
  lemma AtMostOnePerAttempt(cfg: Cluster, run: seq<Action>, i: nat)
    ensures Handovers(cfg, EMPTY, run, i) <= cfg.retryCount + 1
  {
    BudgetOverRun(cfg, run, i);
    if i in After(cfg, EMPTY, run).transfers { assert RowOk(cfg, After(cfg, EMPTY, run).transfers[i]); }
  }

  /** Within an attempt a row's rank never falls, whatever happens; and a row that is gone does not come back. */
  lemma {:induction false} NeverBack(cfg: Cluster, db: Database, run: seq<Action>, i: nat)
    requires Sound(cfg, db) && i in db.transfers
    ensures var after := After(cfg, db, run);
      && i < after.nextTransfer
      && (i in after.transfers ==>
           && after.transfers[i].attempt >= db.transfers[i].attempt
           && (after.transfers[i].attempt == db.transfers[i].attempt
               ==> Rank(after.transfers[i].state) >= Rank(db.transfers[i].state)))
  {
    if run != [] {
      var n := |run| - 1;
      var before := After(cfg, db, run[..n]);
      NeverBack(cfg, db, run[..n], i);
      RunsAreSound(cfg, db, run[..n]);
      StepMovesTable(cfg, before, run[n]);
      if i in before.transfers && i in After(cfg, db, run).transfers {
        assert RowMoves(cfg, before.transfers[i], After(cfg, db, run).transfers[i], run[n].DoSchedule?);
      }
    }
  }

  /** Once a transfer has got as far as a report says, the report is old news for the rest of the attempt: whenever it
      comes in, it changes nothing and raises nothing, unless it says again what the row then says. */
  lemma OvertakenReports(cfg: Cluster, db: Database, run: seq<Action>, e: Event, now: int, store: Option<DeleteAnswer>)
    requires Sound(cfg, db) && e.transferId in db.transfers
    requires Rank(TargetState(e.kind)) <= Rank(db.transfers[e.transferId].state)
    requires e.transferId in After(cfg, db, run).transfers
    requires After(cfg, db, run).transfers[e.transferId].attempt == db.transfers[e.transferId].attempt
    requires After(cfg, db, run).transfers[e.transferId].state != TargetState(e.kind)
    ensures ApplyEvent(cfg, After(cfg, db, run), e, now, store) == (After(cfg, db, run), Ignored)
  {
    NeverBack(cfg, db, run, e.transferId);
    OvertakenNow(cfg, After(cfg, db, run), e, now, store);
  }

  lemma OvertakenNow(cfg: Cluster, db: Database, e: Event, now: int, store: Option<DeleteAnswer>)
    requires e.transferId in db.transfers && db.transfers[e.transferId].state != TargetState(e.kind)
    requires Rank(TargetState(e.kind)) <= Rank(db.transfers[e.transferId].state)
    ensures ApplyEvent(cfg, db, e, now, store) == (db, Ignored)
  {
  }
}
