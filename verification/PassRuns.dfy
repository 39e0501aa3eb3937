/** What one pass of the scheduler hands over, told from the tables alone. */
module PassRuns {
  import opened Options
  import opened Transfers
  import opened FairShare
  import opened Scheduling
  import opened Priority
  import opened Tables
  import opened SchedulerLoop
  import opened Runs
  import opened LimitRuns

  // ---- The order ----

  /** Row i goes before row n: its user owes less, or as much and it is older, or as old and has the lower id. */
  predicate GoesBefore(cfg: Cluster, db: Database, now: int, i: nat, n: nat)
    requires i in db.transfers && n in db.transfers
  {
    var t, u := db.transfers[i], db.transfers[n];
    var p, q := Owes(db.accounts, t.user, now, cfg.decay), Owes(db.accounts, u.user, now, cfg.decay);
    p < q || (p == q && (t.submittedAt < u.submittedAt || (t.submittedAt == u.submittedAt && i < n)))
  }

  /** The points an entry is ranked by are what its user owes. */
  lemma RankedByDebt(cfg: Cluster, db: Database, now: int, waiting: seq<QueuedTransfer>, q: QueuedTransfer)
    requires q in waiting
    ensures RankOf(q, AccountsFor(db.accounts, UsersOf(waiting), now, cfg.decay), cfg.decay, now).points
         == Owes(db.accounts, q.user, now, cfg.decay)
  {
    assert q.user in UsersOf(waiting);
    if q.user in db.accounts { DecayedTwice(db.accounts[q.user], now, now, cfg.decay); }
  }

  /** Whoever owes least is offered first: along the queue debts rise, and at equal debts the older transfer comes
      first, and the lower id of two of the same age. */
  lemma LeastOwingFirst(cfg: Cluster, db: Database, now: int, j: nat, k: nat)
    requires j < k < |Ordered(cfg, db, now)|
    ensures var i, n := Ordered(cfg, db, now)[j].id, Ordered(cfg, db, now)[k].id;
      && i in db.transfers && n in db.transfers && i != n
      && var t, u := db.transfers[i], db.transfers[n];
         var p, q := Owes(db.accounts, t.user, now, cfg.decay), Owes(db.accounts, u.user, now, cfg.decay);
         || p < q
         || (p == q && t.submittedAt < u.submittedAt)
         || (p == q && t.submittedAt == u.submittedAt && i < n)
  {
    var queue, waiting := Ordered(cfg, db, now), Waiting(db.transfers, now, db.nextTransfer);
    var owed := AccountsFor(db.accounts, UsersOf(waiting), now, cfg.decay);
    WaitingRows(db.transfers, now, db.nextTransfer);
    OrderedRows(cfg, db, now);
    OrderQueueSorts(waiting, owed, cfg.decay, now);
    SameMembers(waiting, queue);
    var ranks := RankAll(queue, owed, cfg.decay, now);
    assert AtOrBefore(ranks[j], ranks[k]);
    assert queue[j] in queue && queue[k] in queue;
    RankedByDebt(cfg, db, now, waiting, queue[j]);
    RankedByDebt(cfg, db, now, waiting, queue[k]);
  }

  lemma PositionIff(cfg: Cluster, db: Database, now: int, j: nat, k: nat)
    requires j < |Ordered(cfg, db, now)| && k < |Ordered(cfg, db, now)|
    ensures var i, n := Ordered(cfg, db, now)[j].id, Ordered(cfg, db, now)[k].id;
      i in db.transfers && n in db.transfers && (GoesBefore(cfg, db, now, i, n) <==> j < k)
  {
    OrderedRows(cfg, db, now);
    assert Ordered(cfg, db, now)[j] in Ordered(cfg, db, now);
    if j < k { LeastOwingFirst(cfg, db, now, j, k); }
    if k < j { LeastOwingFirst(cfg, db, now, k, j); }
  }

  // ---- The plan ----

  /** A submitted row whose backoff is over, or that never had one. */
  predicate IsOffered(db: Database, now: int, i: nat) {
    && i in db.transfers && i < db.nextTransfer
    && db.transfers[i].state == Submitted
    && (db.transfers[i].retryAfter.Some? ==> db.transfers[i].retryAfter.value <= now)
  }

  /** The row uses a slot of the scope: one of the whole, one of each end, one of its user, and one of its route if it
      moves data. */
  predicate Uses(t: Transfer, scope: Scope) {
    match scope
    case Everywhere => true
    case OnStorage(s) => t.route.source == s || t.route.target == s
    case OfUser(u) => t.user == u
    case OnRoute(r) => t.kind != Release && t.route == r
  }

  /** The rows at work that use a slot of the scope. */
  function AtWork(db: Database, scope: Scope): set<nat> {
    set i | i in db.transfers && db.transfers[i].state in {Assigned, Running} && Uses(db.transfers[i], scope)
  }

  /** The planned rows that go before a row and use a slot of the scope. */
  function PlannedBefore(cfg: Cluster, db: Database, now: int, planned: set<nat>, i: nat, scope: Scope): set<nat>
    requires i in db.transfers
  {
    set n | n in planned && n in db.transfers && GoesBefore(cfg, db, now, n, i) && Uses(db.transfers[n], scope)
  }

  /** Both ends of the row's route are open, and in every scope it uses a slot of there is one left by what is at work
      and what is planned before it. */
  ghost predicate IsFree(cfg: Cluster, db: Database, now: int, planned: set<nat>, i: nat)
    requires i in db.transfers
  {
    && db.transfers[i].route.source !in db.drained && db.transfers[i].route.target !in db.drained
    && forall scope :: Uses(db.transfers[i], scope) ==>
         |AtWork(db, scope)| + |PlannedBefore(cfg, db, now, planned, i, scope)| < LimitOf(cfg.concurrency, scope)
  }

  /** A plan that passes over nothing it could take and takes nothing it should not. */
  ghost predicate IsPlan(cfg: Cluster, db: Database, now: int, planned: set<nat>) {
    && (forall i :: i in planned ==> IsOffered(db, now, i))
    && (forall i :: IsOffered(db, now, i) ==> (i in planned <==> IsFree(cfg, db, now, planned, i)))
  }

  /** The rows a pass plans to hand over. */
  function PlannedIds(cfg: Cluster, db: Database, now: int): set<nat> {
    set q | q in Planned(cfg, db, now).taken :: q.id
  }

  lemma UsesIff(i: nat, t: Transfer, scope: Scope)
    ensures Takes(Queue(i, t), scope) <==> Uses(t, scope)
  {
  }

  lemma AtWorkIsHolding(db: Database, scope: Scope)
    ensures AtWork(db, scope) == Holding(db.transfers, scope)
  {
    forall i | i in db.transfers ensures Takes(Queue(i, db.transfers[i]), scope) <==> Uses(db.transfers[i], scope) {
      UsesIff(i, db.transfers[i], scope);
    }
  }

  lemma TakenAreRows(cfg: Cluster, db: Database, now: int)
    ensures Scheduling.DistinctIds(Ordered(cfg, db, now))
    ensures forall q :: q in Planned(cfg, db, now).taken ==> q in Ordered(cfg, db, now)
    ensures forall q ::
      q in Ordered(cfg, db, now) ==> (q in Planned(cfg, db, now).taken <==> q.id in PlannedIds(cfg, db, now))
  {
    OrderedRows(cfg, db, now);
    TakenFromQueue(Ordered(cfg, db, now), LoadOf(db.transfers, db.nextTransfer), TermsOf(cfg, db));
  }

  /** Being ahead in the queue is going before in the tables. */
  lemma AheadIsBefore(cfg: Cluster, db: Database, now: int, k: nat, scope: Scope)
    requires k < |Ordered(cfg, db, now)| && Ordered(cfg, db, now)[k].id in db.transfers
    ensures Ahead(Ordered(cfg, db, now), Planned(cfg, db, now).taken, k, scope)
         == PlannedBefore(cfg, db, now, PlannedIds(cfg, db, now), Ordered(cfg, db, now)[k].id, scope)
  {
    var queue, taken := Ordered(cfg, db, now), Planned(cfg, db, now).taken;
    var ahead, planned := Ahead(queue, taken, k, scope), PlannedIds(cfg, db, now);
    OrderedRows(cfg, db, now);
    TakenAreRows(cfg, db, now);
    forall n ensures n in ahead <==> n in PlannedBefore(cfg, db, now, planned, queue[k].id, scope) {
      AheadIff(queue, taken, k, scope, n);
      if n in ahead {
        var j :| 0 <= j < k && queue[j] in taken && Takes(queue[j], scope) && queue[j].id == n;
        PositionIff(cfg, db, now, j, k);
        UsesIff(n, db.transfers[n], scope);
      }
      if n in PlannedBefore(cfg, db, now, planned, queue[k].id, scope) {
        var q :| q in taken && q.id == n;
        var j :| 0 <= j < |queue| && queue[j] == q;
        PositionIff(cfg, db, now, j, k);
        UsesIff(n, db.transfers[n], scope);
      }
    }
  }

  lemma RoomIff(cfg: Cluster, db: Database, now: int, k: nat, scope: Scope)
    requires Linked(db) && k < |Ordered(cfg, db, now)| && Ordered(cfg, db, now)[k].id in db.transfers
    ensures var queue, i := Ordered(cfg, db, now), Ordered(cfg, db, now)[k].id;
      At(LoadOf(db.transfers, db.nextTransfer), scope) + |Ahead(queue, Planned(cfg, db, now).taken, k, scope)|
      == |AtWork(db, scope)| + |PlannedBefore(cfg, db, now, PlannedIds(cfg, db, now), i, scope)|
  {
    LoadCountsTable(db, scope);
    AtWorkIsHolding(db, scope);
    AheadIsBefore(cfg, db, now, k, scope);
  }

  lemma PlannedIff(cfg: Cluster, db: Database, now: int, k: nat)
    requires Linked(db) && k < |Ordered(cfg, db, now)|
    ensures var i := Ordered(cfg, db, now)[k].id;
      i in db.transfers
      && (i in PlannedIds(cfg, db, now) <==> IsFree(cfg, db, now, PlannedIds(cfg, db, now), i))
  {
    var queue := Ordered(cfg, db, now);
    OrderedRow(cfg, db, now, k);
    TakenAreRows(cfg, db, now);
    TakenIff(queue, LoadOf(db.transfers, db.nextTransfer), TermsOf(cfg, db), k);
    FreeIff(cfg, db, now, k);
  }

  lemma OrderedRow(cfg: Cluster, db: Database, now: int, k: nat)
    requires k < |Ordered(cfg, db, now)|
    ensures var q := Ordered(cfg, db, now)[k];
      && q in Ordered(cfg, db, now)
      && q.id in db.transfers && q == Queue(q.id, db.transfers[q.id])
  {
    OrderedRows(cfg, db, now);
  }

  lemma FreeIff(cfg: Cluster, db: Database, now: int, k: nat)
    requires Linked(db) && k < |Ordered(cfg, db, now)| && Ordered(cfg, db, now)[k].id in db.transfers
    requires Ordered(cfg, db, now)[k] == Queue(Ordered(cfg, db, now)[k].id, db.transfers[Ordered(cfg, db, now)[k].id])
    ensures var queue := Ordered(cfg, db, now);
      IsFree(cfg, db, now, PlannedIds(cfg, db, now), queue[k].id)
      <==> && queue[k].Storages() * db.drained == {}
           && LeftRoom(queue, Planned(cfg, db, now).taken, k, LoadOf(db.transfers, db.nextTransfer), cfg.concurrency)
  {
    var queue, load := Ordered(cfg, db, now), LoadOf(db.transfers, db.nextTransfer);
    var q, taken, planned := queue[k], Planned(cfg, db, now).taken, PlannedIds(cfg, db, now);
    var t := db.transfers[q.id];
    assert q.Storages() == {t.route.source, t.route.target};
    assert t.route.source in db.drained ==> t.route.source in q.Storages() * db.drained;
    assert t.route.target in db.drained ==> t.route.target in q.Storages() * db.drained;
    forall scope ensures Takes(q, scope) <==> Uses(t, scope) {
      UsesIff(q.id, t, scope);
    }
    forall scope
      ensures At(load, scope) + |Ahead(queue, taken, k, scope)|
        == |AtWork(db, scope)| + |PlannedBefore(cfg, db, now, planned, q.id, scope)|
    {
      RoomIff(cfg, db, now, k, scope);
    }
  }

  /** What a pass plans: of the rows that wait, in the order of what their users owe, each that finds both its ends open
      and a slot left wherever it needs one. */
  lemma PassPlans(cfg: Cluster, db: Database, now: int)
    requires Linked(db)
    ensures IsPlan(cfg, db, now, PlannedIds(cfg, db, now))
  {
    var queue, planned := Ordered(cfg, db, now), PlannedIds(cfg, db, now);
    OrderedRows(cfg, db, now);
    TakenAreRows(cfg, db, now);
    forall i | IsOffered(db, now, i) ensures i in planned <==> IsFree(cfg, db, now, planned, i) {
      assert Queue(i, db.transfers[i]) in queue;
      var k :| 0 <= k < |queue| && queue[k] == Queue(i, db.transfers[i]);
      PlannedIff(cfg, db, now, k);
    }
  }

  /** There is only one such plan. */
  lemma OnlyPlan(cfg: Cluster, db: Database, now: int, a: set<nat>, b: set<nat>)
    requires Linked(db) && IsPlan(cfg, db, now, a) && IsPlan(cfg, db, now, b)
    ensures a == b
  {
    OrderedRows(cfg, db, now);
    var queue := Ordered(cfg, db, now);
    AgreeUpTo(cfg, db, now, a, b, |queue|);
    forall i ensures i in a <==> i in b {
      if i in a || i in b {
        assert Queue(i, db.transfers[i]) in queue;
      }
    }
  }

  lemma {:induction false} AgreeUpTo(cfg: Cluster, db: Database, now: int, a: set<nat>, b: set<nat>, k: nat)
    requires IsPlan(cfg, db, now, a) && IsPlan(cfg, db, now, b) && k <= |Ordered(cfg, db, now)|
    ensures forall j :: 0 <= j < k ==> (Ordered(cfg, db, now)[j].id in a <==> Ordered(cfg, db, now)[j].id in b)
  {
    if k > 0 {
      var queue := Ordered(cfg, db, now);
      AgreeUpTo(cfg, db, now, a, b, k - 1);
      OrderedRows(cfg, db, now);
      assert queue[k - 1] in queue;
      var i := queue[k - 1].id;
      forall scope ensures PlannedBefore(cfg, db, now, a, i, scope) == PlannedBefore(cfg, db, now, b, i, scope) {
        SameBefore(cfg, db, now, a, b, k - 1, scope);
      }
    }
  }

  lemma SameBefore(cfg: Cluster, db: Database, now: int, a: set<nat>, b: set<nat>, k: nat, scope: Scope)
    requires IsPlan(cfg, db, now, a) && IsPlan(cfg, db, now, b) && k < |Ordered(cfg, db, now)|
    requires Ordered(cfg, db, now)[k].id in db.transfers
    requires forall j :: 0 <= j < k ==> (Ordered(cfg, db, now)[j].id in a <==> Ordered(cfg, db, now)[j].id in b)
    ensures var i := Ordered(cfg, db, now)[k].id;
      PlannedBefore(cfg, db, now, a, i, scope) == PlannedBefore(cfg, db, now, b, i, scope)
  {
    var queue := Ordered(cfg, db, now);
    OrderedRows(cfg, db, now);
    forall n | n in db.transfers && GoesBefore(cfg, db, now, n, queue[k].id) && (n in a || n in b)
      ensures n in a && n in b
    {
      assert Queue(n, db.transfers[n]) in queue;
      var j :| 0 <= j < |queue| && queue[j] == Queue(n, db.transfers[n]);
      PositionIff(cfg, db, now, j, k);
    }
  }

  // ---- What is handed over ----

  /** The bandwidth a planned row may be given: the share of its route with those at work on it and planned before. */
  ghost predicate GivenShare(cfg: Cluster, db: Database, now: int, i: nat, bwlimit: Option<int>)
    requires i in db.transfers
  {
    var route := OnRoute(db.transfers[i].route);
    var planned := PlannedIds(cfg, db, now);
    && bwlimit.Some?
    && IsShare(bwlimit.value, |AtWork(db, route)| + |PlannedBefore(cfg, db, now, planned, i, route)|, cfg.bandwidth)
  }

  lemma PlannedShare(cfg: Cluster, db: Database, now: int, k: nat)
    requires Linked(db) && cfg.bandwidth.minPerTransfer <= cfg.bandwidth.maxPerTransfer
    requires k < |Ordered(cfg, db, now)| && Ordered(cfg, db, now)[k] in Planned(cfg, db, now).taken
    requires Ordered(cfg, db, now)[k].kind.MovesData()
    ensures var p, i := Planned(cfg, db, now), Ordered(cfg, db, now)[k].id;
      && i in db.transfers
      && exists m :: 0 <= m < |p.plan| && p.plan[m].transferId == i && GivenShare(cfg, db, now, i, p.plan[m].bwlimit)
  {
    var queue, load, terms := Ordered(cfg, db, now), LoadOf(db.transfers, db.nextTransfer), TermsOf(cfg, db);
    OrderedRow(cfg, db, now, k);
    TakenAreRows(cfg, db, now);
    var reached := Walk(queue[..k], load, terms);
    DispatchedWhenReached(queue, load, terms, k);
    ReachedCount(cfg, db, now, k, queue[k].id);
    ReachedShare(cfg, db, now, queue[k].id, queue[k], reached.load);
    assert Planned(cfg, db, now).plan[|reached.plan|] == DispatchOf(queue[k], reached.load, cfg.bandwidth);
  }

  /** How many others the walk counts on the route of the row when it reaches it. */
  lemma ReachedCount(cfg: Cluster, db: Database, now: int, k: nat, i: nat)
    requires Linked(db) && Scheduling.DistinctIds(Ordered(cfg, db, now)) && k < |Ordered(cfg, db, now)|
    requires Ordered(cfg, db, now)[k].id == i && i in db.transfers
    ensures var reached := Walk(Ordered(cfg, db, now)[..k], LoadOf(db.transfers, db.nextTransfer), TermsOf(cfg, db));
      var route := OnRoute(db.transfers[i].route);
      At(reached.load, route)
      == |AtWork(db, route)| + |PlannedBefore(cfg, db, now, PlannedIds(cfg, db, now), i, route)|
  {
    var route := OnRoute(db.transfers[i].route);
    CountedWhenReached(Ordered(cfg, db, now), LoadOf(db.transfers, db.nextTransfer), TermsOf(cfg, db), k, route);
    RoomIff(cfg, db, now, k, route);
  }

  lemma ReachedShare(cfg: Cluster, db: Database, now: int, i: nat, q: QueuedTransfer, load: Load)
    requires cfg.bandwidth.minPerTransfer <= cfg.bandwidth.maxPerTransfer && i in db.transfers
    requires q.route == db.transfers[i].route && q.kind.MovesData()
    requires var route := OnRoute(db.transfers[i].route);
      At(load, route) == |AtWork(db, route)| + |PlannedBefore(cfg, db, now, PlannedIds(cfg, db, now), i, route)|
    ensures GivenShare(cfg, db, now, i, DispatchOf(q, load, cfg.bandwidth).bwlimit)
  {
    GivenIsShare(At(load, OnRoute(q.route)), cfg.bandwidth);
  }

  /** The warms and flushes that daemons have and that use a slot of the scope. */
  function Out(transfers: map<nat, Transfer>, scope: Scope): set<nat> {
    set i | i in transfers && transfers[i].kind != Release && transfers[i].state in {Assigned, Running}
            && Uses(transfers[i], scope)
  }

  lemma OutIsMoving(transfers: map<nat, Transfer>, scope: Scope)
    ensures Out(transfers, scope) == Moving(transfers, scope)
  {
    forall i | i in transfers ensures Takes(Queue(i, transfers[i]), scope) <==> Uses(transfers[i], scope) {
      UsesIff(i, transfers[i], scope);
    }
  }

  /** The limits in the config's terms, after any run: how many warms and flushes may be out at once, in all, at either
      end of any storage, for any user and on any route. */
  lemma ConfiguredLimits(cfg: Cluster, run: seq<Action>, storage: string, user: string, route: Route)
    ensures var rows := After(cfg, EMPTY, run).transfers;
      && |Out(rows, Everywhere)| <= cfg.concurrency.global_
      && |Out(rows, OnStorage(storage))| <= cfg.concurrency.perStorage
      && |Out(rows, OfUser(user))| <= cfg.concurrency.perUser
      && |Out(rows, OnRoute(route))| <= cfg.concurrency.perRoute
  {
    var rows := After(cfg, EMPTY, run).transfers;
    LimitsNeverExceeded(cfg, run);
    forall scope ensures |Out(rows, scope)| <= LimitOf(cfg.concurrency, scope) {
      OutIsMoving(rows, scope);
    }
    assert |Out(rows, Everywhere)| <= LimitOf(cfg.concurrency, Everywhere);
    assert |Out(rows, OnStorage(storage))| <= LimitOf(cfg.concurrency, OnStorage(storage));
    assert |Out(rows, OfUser(user))| <= LimitOf(cfg.concurrency, OfUser(user));
    assert |Out(rows, OnRoute(route))| <= LimitOf(cfg.concurrency, OnRoute(route));
  }

  /** What a daemon that takes a row makes of it. */
  ghost predicate GivenTo(t: Transfer, u: Transfer, h: Handover) {
    && u.state == Assigned && u.daemon == Some(h.daemon) && u.taskId == Some(h.taskId)
    && u == t.(state := u.state, daemon := u.daemon, taskId := u.taskId, bwlimit := u.bwlimit)
  }

  lemma {:induction false} StartsRow(transfers: map<nat, Transfer>, plan: seq<Dispatch>, answers: map<nat, Handover>,
                                     k: nat)
    requires k < |plan| && plan[k].transferId in transfers && transfers[plan[k].transferId].state == Submitted
    requires forall j, m :: 0 <= j < m < |plan| ==> plan[j].transferId != plan[m].transferId
    ensures var i := plan[k].transferId;
      var t, after := transfers[i], StartAll(transfers, plan, answers);
      && i in after
      && (if t.kind != Release && i in answers
          then GivenTo(t, after[i], answers[i]) && after[i].bwlimit == plan[k].bwlimit
          else after[i] == t)
  {
    var n := |plan| - 1;
    var i := plan[k].transferId;
    StartFrame(transfers, plan[..n], answers);
    if k < n {
      StartsRow(transfers, plan[..n], answers, k);
      assert plan[n].transferId != i;
    } else {
      forall j | 0 <= j < n ensures plan[..n][j].transferId != i {}
    }
  }

  /** What a pass does to a row: a planned warm or flush whose daemon takes it is ASSIGNED to that daemon,
      under the name the daemon gives it and with its share of the bandwidth; every other row, and every
      other table, is left alone. */
  lemma PassHandsOver(cfg: Cluster, db: Database, now: int, answers: map<nat, Handover>, i: nat)
    requires Linked(db) && cfg.bandwidth.minPerTransfer <= cfg.bandwidth.maxPerTransfer && i in db.transfers
    ensures var t, after := db.transfers[i], ScheduleOnce(cfg, db, now, answers);
      && after == db.(transfers := after.transfers) && after.transfers.Keys == db.transfers.Keys
      && (if i in PlannedIds(cfg, db, now) && t.kind != Release && i in answers
          then GivenTo(t, after.transfers[i], answers[i]) && GivenShare(cfg, db, now, i, after.transfers[i].bwlimit)
          else after.transfers[i] == t)
  {
    var p := Planned(cfg, db, now);
    StartFrame(db.transfers, p.plan, answers);
    if i in PlannedIds(cfg, db, now) {
      var m := PlaceInPlan(cfg, db, now, i);
      StartsRow(db.transfers, p.plan, answers, m);
    } else {
      PassPlansRows(cfg, db, now);
      forall m | 0 <= m < |p.plan| ensures p.plan[m].transferId != i {
        assert p.taken[m] in p.taken;
      }
    }
  }

  /** Where a planned row stands in the plan, and with what limit. */
  lemma PlaceInPlan(cfg: Cluster, db: Database, now: int, i: nat) returns (m: nat)
    requires Linked(db) && cfg.bandwidth.minPerTransfer <= cfg.bandwidth.maxPerTransfer
    requires i in db.transfers && i in PlannedIds(cfg, db, now)
    ensures var plan := Planned(cfg, db, now).plan;
      && m < |plan| && plan[m].transferId == i && db.transfers[i].state == Submitted
      && (db.transfers[i].kind.MovesData() ==> GivenShare(cfg, db, now, i, plan[m].bwlimit))
      && (forall j, k :: 0 <= j < k < |plan| ==> plan[j].transferId != plan[k].transferId)
  {
    var queue, p := Ordered(cfg, db, now), Planned(cfg, db, now);
    PassPlansRows(cfg, db, now);
    TakenAreRows(cfg, db, now);
    var q :| q in p.taken && q.id == i;
    m :| 0 <= m < |p.taken| && p.taken[m] == q;
    if q.kind.MovesData() {
      var k :| 0 <= k < |queue| && queue[k] == q;
      PlannedShare(cfg, db, now, k);
      m :| 0 <= m < |p.plan| && p.plan[m].transferId == i && GivenShare(cfg, db, now, i, p.plan[m].bwlimit);
    }
  }

  /** What a pass returns is what it has handed over. */
  lemma PassReturns(cfg: Cluster, db: Database, now: int, answers: map<nat, Handover>, i: nat)
    requires Linked(db) && i in db.transfers
    ensures var started := StartedOf(db.transfers, Planned(cfg, db, now).plan, answers);
      (exists d :: d in started && d.transferId == i)
      <==> i in PlannedIds(cfg, db, now) && db.transfers[i].kind != Release && i in answers
  {
    var p := Planned(cfg, db, now);
    PassPlansRows(cfg, db, now);
    StartedRows(db.transfers, p.plan, answers, i);
    if i in PlannedIds(cfg, db, now) {
      var q :| q in p.taken && q.id == i;
      var m :| 0 <= m < |p.taken| && p.taken[m] == q;
      assert p.plan[m].transferId == i;
    }
    if m: nat :| m < |p.plan| && p.plan[m].transferId == i { assert p.taken[m] in p.taken; }
  }

  lemma {:induction false} StartedRows(transfers: map<nat, Transfer>, plan: seq<Dispatch>, answers: map<nat, Handover>,
                                       i: nat)
    requires i in transfers && (forall k :: 0 <= k < |plan| ==> plan[k].transferId in transfers)
    requires forall k :: 0 <= k < |plan| ==> transfers[plan[k].transferId].state == Submitted
    requires forall j, m :: 0 <= j < m < |plan| ==> plan[j].transferId != plan[m].transferId
    ensures (exists d :: d in StartedOf(transfers, plan, answers) && d.transferId == i)
       <==> (exists k: nat :: k < |plan| && plan[k].transferId == i) && transfers[i].kind != Release && i in answers
  {
    if plan != [] {
      var n := |plan| - 1;
      StartedRows(transfers, plan[..n], answers, i);
      StartFrame(transfers, plan[..n], answers);
      var before, last := StartedOf(transfers, plan[..n], answers), plan[n];
      forall j | 0 <= j < n ensures plan[..n][j].transferId != last.transferId {}
      assert StartAll(transfers, plan[..n], answers)[last.transferId] == transfers[last.transferId];
      if last.transferId == i && transfers[i].kind != Release && i in answers {
        assert last in StartedOf(transfers, plan, answers);
      }
      if d :| d in before && d.transferId == i { assert d in StartedOf(transfers, plan, answers); }
      if k: nat :| k < n && plan[k].transferId == i { assert plan[..n][k].transferId == i; }
    }
  }
}
