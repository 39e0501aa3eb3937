/** Fair-share accounts over whole runs: each is the history of its charges. */
module AccountRuns {
  import opened Options
  import opened Transfers
  import opened FairShare
  import opened Tables
  import opened Releases
  import opened Events
  import opened Reconciling
  import opened Submissions
  import opened Runs

  /** What an event makes of the account of its user: a failure for good pays back, unless a report that the transfer
      had started was taken in. */
  function EventCharge(cfg: Cluster, db: Database, e: Event, now: int): Option<(string, Charge)> {
    if Objection(cfg, db, e).Some? then None
    else
      var t := db.transfers[e.transferId];
      if e.kind == FailedEvent && !Retries(cfg, t.attempt, e.failure) && t.startedAt.None?
      then Some((t.user, Charge(-PointsForBytes(t.kind, t.bytesTotal, cfg.pointsPerGib), now)))
      else None
  }

  /** Whom a call charges or pays back, and what; nobody, for most. */
  ghost function ChargeOf(cfg: Cluster, db: Database, a: Action): Option<(string, Charge)> {
    match a
    case DoWarm(owner, plan, now, _) =>
      if Step(cfg, db, a).1 == Done
      then Some((owner, Charge(PointsForBytes(Warm, plan.bytesTotal, cfg.pointsPerGib), now))) else None
    case DoFlush(owner, flush, now, _) =>
      var found := LiveFileset(db.filesets, owner, flush.storage, flush.name);
      if Step(cfg, db, a).1 == Done && found.Some?
      then Some((owner, Charge(PointsForBytes(Flush, FlushBytes(db.filesets[found.value], flush),
                                              cfg.pointsPerGib), now)))
      else None
    case DoEvent(event, now, _) => EventCharge(cfg, db, event, now)
    case DoReconcile(id, task, now) =>
      if id in db.transfers && InFlight(db.transfers[id].state) && db.transfers[id].taskId.Some?
        && TaskEvent(cfg, id, db.transfers[id], task, now).Some?
      then EventCharge(cfg, db, TaskEvent(cfg, id, db.transfers[id], task, now).value, now)
      else None
    case DoCancel(id, now) =>
      if id in db.transfers && CanCancel(db.transfers[id].state) && db.transfers[id].startedAt.None?
      then Some((db.transfers[id].user,
                 Charge(-PointsForBytes(db.transfers[id].kind, db.transfers[id].bytesTotal, cfg.pointsPerGib), now)))
      else None
    case _ => None
  }

  function ChargedWith(accounts: map<string, Account>, c: Option<(string, Charge)>,
                       decay: Decay): map<string, Account> {
    match c
    case None => accounts
    case Some((user, charge)) => Charged(accounts, user, charge.delta, charge.at, decay)
  }

  lemma ReleaseChargesNobody(db: Database, id: nat, now: int, answer: DeleteAnswer)
    requires id in db.filesets
    ensures PerformRelease(db, id, now, answer).0.accounts == db.accounts
  {
  }

  lemma EventCharges(cfg: Cluster, db: Database, e: Event, now: int, store: Option<DeleteAnswer>)
    ensures ApplyEvent(cfg, db, e, now, store).0.accounts
      == ChargedWith(db.accounts, EventCharge(cfg, db, e, now), cfg.decay)
  {
    if Objection(cfg, db, e).None? && store.Some? {
      ReleaseChargesNobody(Accepted(cfg, db, e, now), db.transfers[e.transferId].filesetId, now, store.value);
    }
  }

  lemma ReconcileCharges(cfg: Cluster, db: Database, id: nat, task: TaskAnswer, now: int)
    requires id in db.transfers
    ensures ReconcileOne(cfg, db, id, task, now).0.accounts
         == ChargedWith(db.accounts,
              if db.transfers[id].taskId.Some? && TaskEvent(cfg, id, db.transfers[id], task, now).Some?
              then EventCharge(cfg, db, TaskEvent(cfg, id, db.transfers[id], task, now).value, now)
              else None, cfg.decay)
  {
    if db.transfers[id].taskId.Some? {
      var e := TaskEvent(cfg, id, db.transfers[id], task, now);
      if e.Some? { EventCharges(cfg, db, e.value, now, None); }
    }
  }

  lemma WarmCharges(cfg: Cluster, db: Database, owner: string, plan: WarmPlan, now: int, prepared: Option<string>)
    ensures var r := SubmitWarm(cfg, db, owner, plan, now, prepared);
      r.0.accounts == if r.1 == Done
        then Charged(db.accounts, owner, PointsForBytes(Warm, plan.bytesTotal, cfg.pointsPerGib), now, cfg.decay)
        else db.accounts
  {
  }

  lemma FlushCharges(cfg: Cluster, db: Database, a: Action)
    requires a.DoFlush?
    ensures Step(cfg, db, a).0.accounts == ChargedWith(db.accounts, ChargeOf(cfg, db, a), cfg.decay)
  {
  }

  lemma CancelCharges(cfg: Cluster, db: Database, a: Action)
    requires a.DoCancel?
    ensures Step(cfg, db, a).0.accounts == ChargedWith(db.accounts, ChargeOf(cfg, db, a), cfg.decay)
  {
  }

  lemma FilesetCallChargesNobody(cfg: Cluster, db: Database, a: Action)
    requires a.DoCreate? || a.DoResize? || a.DoMeasure? || a.DoDrain?
    ensures Step(cfg, db, a).0.accounts == db.accounts
  {
  }

  lemma ReleaseCallChargesNobody(db: Database, owner: string, storage: string, name: string, discard: bool, now: int,
                                 answer: DeleteAnswer)
    ensures ReleaseFileset(db, owner, storage, name, discard, now, answer).0.accounts == db.accounts
  {
    var found := LiveFileset(db.filesets, owner, storage, name);
    if found.Some? { ReleaseChargesNobody(db, found.value, now, answer); }
  }

  /** A call changes at most one account, by the charge it makes. */
  lemma StepCharges(cfg: Cluster, db: Database, a: Action)
    ensures Step(cfg, db, a).0.accounts == ChargedWith(db.accounts, ChargeOf(cfg, db, a), cfg.decay)
  {
    if a.DoFlush? {
      FlushCharges(cfg, db, a);
    } else if a.DoCancel? {
      CancelCharges(cfg, db, a);
    } else if a.DoCreate? || a.DoResize? || a.DoMeasure? || a.DoDrain? {
      FilesetCallChargesNobody(cfg, db, a);
    } else {
      match a
      case DoWarm(owner, plan, now, prepared) => WarmCharges(cfg, db, owner, plan, now, prepared);
      case DoEvent(event, now, store) => EventCharges(cfg, db, event, now, store);
      case DoReconcile(id, task, now) => if id in db.transfers { ReconcileCharges(cfg, db, id, task, now); }
      case DoRelease(owner, storage, name, discard, now, deleted) =>
        ReleaseCallChargesNobody(db, owner, storage, name, discard, now, deleted);
      case _ =>
    }
  }

  /** The charges and refunds a run makes to one user, in order. */
  ghost function History(cfg: Cluster, run: seq<Action>, user: string): seq<Charge> {
    if run == [] then []
    else
      var n := |run| - 1;
      var c := ChargeOf(cfg, After(cfg, EMPTY, run[..n]), run[n]);
      History(cfg, run[..n], user) + (if c.Some? && c.value.0 == user then [c.value.1] else [])
  }

  ghost predicate Reflects(accounts: map<string, Account>, user: string, history: seq<Charge>, decay: Decay) {
    && (user in accounts <==> history != [])
    && (history != [] ==> accounts[user] == Lazily(history, decay))
  }

  lemma OneChargeMore(accounts: map<string, Account>, user: string, history: seq<Charge>, c: Option<(string, Charge)>,
                      decay: Decay)
    requires Reflects(accounts, user, history, decay)
    ensures Reflects(ChargedWith(accounts, c, decay), user,
                     history + (if c.Some? && c.value.0 == user then [c.value.1] else []), decay)
  {
    if c.Some? && c.value.0 == user {
      assert (history + [c.value.1])[..|history|] == history;
    } else {
      assert history + [] == history;
    }
  }

  lemma {:induction false} HistoryReflected(cfg: Cluster, run: seq<Action>, user: string)
    ensures Reflects(After(cfg, EMPTY, run).accounts, user, History(cfg, run, user), cfg.decay)
  {
    if run != [] {
      var n := |run| - 1;
      var before := After(cfg, EMPTY, run[..n]);
      HistoryReflected(cfg, run[..n], user);
      StepCharges(cfg, before, run[n]);
      OneChargeMore(before.accounts, user, History(cfg, run[..n], user), ChargeOf(cfg, before, run[n]), cfg.decay);
    }
  }

  /** After any run a user has an account if and only if something was charged or paid back, and it is what decaying it
      on every tick, up to the latest time it was touched, would have made of those charges; it is never negative. */
  lemma AccountsAreHistories(cfg: Cluster, run: seq<Action>, user: string)
    ensures var accounts, history := After(cfg, EMPTY, run).accounts, History(cfg, run, user);
      && (user in accounts <==> history != [])
      && (history != [] ==>
           && accounts[user] == Lazily(history, cfg.decay) == Eagerly(history, cfg.decay)
           && accounts[user].points >= 0.0
           && accounts[user].decayedAt == LatestOf(history))
  {
    HistoryReflected(cfg, run, user);
    if History(cfg, run, user) != [] { LazyIsEager(History(cfg, run, user), 0, cfg.decay); }
  }
}
