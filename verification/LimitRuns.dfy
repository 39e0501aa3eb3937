/** The concurrency limits over whole runs, and the recount after a pass. */
module LimitRuns {
  import opened Options
  import opened Transfers
  import opened Scheduling
  import opened Priority
  import opened Tables
  import opened Releases
  import opened Events
  import opened SchedulerLoop
  import opened Runs
  import opened FilesetRuns

  /** Everything in flight that takes a slot in a scope: what _load counts. */
  ghost function Holding(transfers: map<nat, Transfer>, scope: Scope): set<nat> {
    set i | i in transfers && InFlight(transfers[i].state) && Takes(Queue(i, transfers[i]), scope)
  }

  /** The warms and flushes among them. */
  ghost function Moving(transfers: map<nat, Transfer>, scope: Scope): set<nat> {
    set i | i in transfers && transfers[i].kind.MovesData() && InFlight(transfers[i].state)
      && Takes(Queue(i, transfers[i]), scope)
  }

  ghost predicate WithinLimits(cfg: Cluster, transfers: map<nat, Transfer>) {
    forall scope :: |Moving(transfers, scope)| <= LimitOf(cfg.concurrency, scope)
  }

  lemma SubsetCount<T>(a: set<T>, b: set<T>)
    requires a <= b
    ensures |a| <= |b|
  {
    assert b == a + (b - a);
  }

  ghost function HoldingBelow(transfers: map<nat, Transfer>, n: nat, scope: Scope): set<nat> {
    set i | i in Holding(transfers, scope) && i < n
  }

  lemma HoldingOneMore(transfers: map<nat, Transfer>, n: nat, scope: Scope)
    ensures n !in HoldingBelow(transfers, n, scope)
    ensures HoldingBelow(transfers, n + 1, scope)
         == HoldingBelow(transfers, n, scope) + (if n in Holding(transfers, scope) then {n} else {})
  {
  }

  lemma LoadOneMore(transfers: map<nat, Transfer>, n: nat, scope: Scope)
    ensures At(LoadOf(transfers, n + 1), scope)
      == At(LoadOf(transfers, n), scope) + (if n in Holding(transfers, scope) then 1 else 0)
  {
    var before := LoadOf(transfers, n);
    if n in transfers && InFlight(transfers[n].state) {
      assert LoadOf(transfers, n + 1) == Occupy(before, Queue(n, transfers[n]));
    } else {
      assert LoadOf(transfers, n + 1) == before;
    }
  }

  lemma {:induction false} LoadCounts(transfers: map<nat, Transfer>, n: nat, scope: Scope)
    ensures At(LoadOf(transfers, n), scope) == |HoldingBelow(transfers, n, scope)|
  {
    if n == 0 {
      assert HoldingBelow(transfers, 0, scope) == {};
    } else {
      var m: nat := n - 1;
      LoadCounts(transfers, m, scope);
      LoadOneMore(transfers, m, scope);
      HoldingOneMore(transfers, m, scope);
    }
  }

  /** _load agrees with a count of the table in every scope. */
  lemma LoadCountsTable(db: Database, scope: Scope)
    requires Linked(db)
    ensures At(LoadOf(db.transfers, db.nextTransfer), scope) == |Holding(db.transfers, scope)|
  {
    LoadCounts(db.transfers, db.nextTransfer, scope);
    assert HoldingBelow(db.transfers, db.nextTransfer, scope) == Holding(db.transfers, scope);
  }

  lemma HoldingGains(transfers: map<nat, Transfer>, id: nat, t: Transfer, scope: Scope)
    requires id in transfers && !InFlight(transfers[id].state) && InFlight(t.state)
    ensures id !in Holding(transfers, scope)
    ensures Holding(transfers[id := t], scope)
      == Holding(transfers, scope) + (if Takes(Queue(id, t), scope) then {id} else {})
  {
  }

  // ---- What a pass works on ----

  lemma {:induction false} WaitingRows(transfers: map<nat, Transfer>, now: int, n: nat)
    ensures var w := Waiting(transfers, now, n);
      && (forall q ::
            q in w
            ==> q.id < n && q.id in transfers && Offered(transfers[q.id], now) && q == Queue(q.id, transfers[q.id]))
      && (forall i :: i in transfers && i < n && Offered(transfers[i], now) ==> Queue(i, transfers[i]) in w)
      && (forall j, k :: 0 <= j < k < |w| ==> w[j].id != w[k].id)
  {
    if n > 0 { WaitingRows(transfers, now, n - 1); }
  }

  /** The entries of the ordered queue are the waiting rows, each once. */
  lemma OrderedRows(cfg: Cluster, db: Database, now: int)
    ensures var w := Ordered(cfg, db, now);
      && (forall q ::
            q in w ==> q.id in db.transfers && Offered(db.transfers[q.id], now) && q == Queue(q.id, db.transfers[q.id]))
      && (forall i ::
            i in db.transfers && i < db.nextTransfer && Offered(db.transfers[i], now)
            ==> Queue(i, db.transfers[i]) in w)
      && (forall j, k :: 0 <= j < k < |w| ==> w[j].id != w[k].id)
  {
    var waiting := Waiting(db.transfers, now, db.nextTransfer);
    WaitingRows(db.transfers, now, db.nextTransfer);
    OrderQueueSorts(waiting, AccountsFor(db.accounts, UsersOf(waiting), now, cfg.decay), cfg.decay, now);
    SameMembers(waiting, Ordered(cfg, db, now));
  }

  lemma SameMembers(a: seq<QueuedTransfer>, b: seq<QueuedTransfer>)
    requires multiset(a) == multiset(b)
    requires forall j, k :: 0 <= j < k < |a| ==> a[j].id != a[k].id
    ensures forall q :: q in a <==> q in b
    ensures forall j, k :: 0 <= j < k < |b| ==> b[j].id != b[k].id
  {
    forall q ensures q in a <==> q in b {
      assert q in multiset(a) <==> q in multiset(b);
    }
    forall j, k | 0 <= j < k < |b| ensures b[j].id != b[k].id {
      if b[j].id == b[k].id {
        assert b[j] in a && b[k] in a;
        assert b[j] == b[k];
        TwiceIn(b, j, k);
        OnceIn(a, b[j]);
      }
    }
  }

  lemma TwiceIn(s: seq<QueuedTransfer>, j: nat, k: nat)
    requires j < k < |s| && s[j] == s[k]
    ensures multiset(s)[s[j]] >= 2
  {
    assert s == s[..k] + [s[k]] + s[k + 1..];
    assert s[j] in s[..k];
  }

  lemma {:induction false} OnceIn(s: seq<QueuedTransfer>, q: QueuedTransfer)
    requires forall j, k :: 0 <= j < k < |s| ==> s[j].id != s[k].id
    ensures multiset(s)[q] <= 1
  {
    if s != [] {
      OnceIn(s[1..], q);
      assert s == [s[0]] + s[1..];
      if s[0] == q { assert q !in s[1..]; }
    }
  }

  // ---- Carrying out a plan ----

  /** The plan of a pass, row for row: what it takes are waiting rows. */
  ghost predicate PlansRows(transfers: map<nat, Transfer>, plan: seq<Dispatch>, taken: seq<QueuedTransfer>) {
    && |plan| == |taken|
    && (forall k :: 0 <= k < |plan| ==>
         && plan[k].transferId == taken[k].id
         && taken[k].id in transfers && transfers[taken[k].id].state == Submitted
         && taken[k] == Queue(taken[k].id, transfers[taken[k].id]))
    && (forall j, k :: 0 <= j < k < |taken| ==> taken[j].id != taken[k].id)
  }

  lemma PassPlansRows(cfg: Cluster, db: Database, now: int)
    ensures PlansRows(db.transfers, Planned(cfg, db, now).plan, Planned(cfg, db, now).taken)
  {
    OrderedRows(cfg, db, now);
    TakenFromQueue(Ordered(cfg, db, now), LoadOf(db.transfers, db.nextTransfer), TermsOf(cfg, db));
    TakenOnce(Ordered(cfg, db, now), LoadOf(db.transfers, db.nextTransfer), TermsOf(cfg, db));
    var p := Planned(cfg, db, now);
    forall k | 0 <= k < |p.taken| ensures p.taken[k] in Ordered(cfg, db, now) {
      assert p.taken[k] in p.taken;
    }
  }

  lemma {:induction false} StartFrame(transfers: map<nat, Transfer>, plan: seq<Dispatch>, answers: map<nat, Handover>)
    ensures var after := StartAll(transfers, plan, answers);
      && after.Keys == transfers.Keys
      && (forall i ::
            i in transfers && (forall k :: 0 <= k < |plan| ==> plan[k].transferId != i) ==> after[i] == transfers[i])
      && (forall i :: i in transfers ==> SameJob(transfers[i], after[i]))
  {
    if plan != [] {
      var n := |plan| - 1;
      StartFrame(transfers, plan[..n], answers);
      forall i | i in transfers && (forall k :: 0 <= k < |plan| ==> plan[k].transferId != i)
        ensures StartAll(transfers, plan, answers)[i] == transfers[i]
      {
        assert forall k :: 0 <= k < n ==> plan[..n][k].transferId != i;
        assert plan[n].transferId != i;
      }
    }
  }

  lemma MovingGains(transfers: map<nat, Transfer>, id: nat, t: Transfer, scope: Scope)
    ensures |Moving(transfers[id := t], scope)|
      <= |Moving(transfers, scope)| + (if Takes(Queue(id, t), scope) then 1 else 0)
  {
    SubsetCount(Moving(transfers[id := t], scope),
                Moving(transfers, scope) + (if Takes(Queue(id, t), scope) then {id} else {}));
  }

  /** A scope gains at most one transfer in flight for each entry the plan took in it. */
  lemma {:induction false} StartsAtMost(transfers: map<nat, Transfer>, plan: seq<Dispatch>, taken: seq<QueuedTransfer>,
                                        answers: map<nat, Handover>, scope: Scope)
    requires PlansRows(transfers, plan, taken)
    ensures |Moving(StartAll(transfers, plan, answers), scope)| <= |Moving(transfers, scope)| + TakenIn(taken, scope)
  {
    if plan != [] {
      var n := |plan| - 1;
      StartsAtMost(transfers, plan[..n], taken[..n], answers, scope);
      var before := StartAll(transfers, plan[..n], answers);
      if Starts(before, plan[n], answers) {
        var id := taken[n].id;
        StartFrame(transfers, plan[..n], answers);
        assert SameJob(transfers[id], before[id]);
        MovingGains(before, id, HandedOver(before[id], answers[id], plan[n].bwlimit), scope);
      }
    }
  }

  lemma ScheduleKeepsLimits(cfg: Cluster, db: Database, now: int, answers: map<nat, Handover>)
    requires Linked(db) && WithinLimits(cfg, db.transfers)
    ensures WithinLimits(cfg, ScheduleOnce(cfg, db, now, answers).transfers)
  {
    var p := Planned(cfg, db, now);
    var after := ScheduleOnce(cfg, db, now, answers).transfers;
    PassPlansRows(cfg, db, now);
    forall scope ensures |Moving(after, scope)| <= LimitOf(cfg.concurrency, scope) {
      StartsAtMost(db.transfers, p.plan, p.taken, answers, scope);
      WalkCounts(Ordered(cfg, db, now), LoadOf(db.transfers, db.nextTransfer), TermsOf(cfg, db), scope);
      LoadCountsTable(db, scope);
      SubsetCount(Moving(db.transfers, scope), Holding(db.transfers, scope));
    }
  }

  /** Nothing but a scheduler pass puts another warm or flush in flight. */
  lemma QuietKeepsLimits(cfg: Cluster, db: Database, db': Database)
    requires TableMoves(cfg, db, db', false) && WithinLimits(cfg, db.transfers)
    ensures WithinLimits(cfg, db'.transfers)
  {
    forall scope ensures |Moving(db'.transfers, scope)| <= LimitOf(cfg.concurrency, scope) {
      forall i | i in Moving(db'.transfers, scope) ensures i in Moving(db.transfers, scope) {
        if i in db.transfers { assert RowMoves(cfg, db.transfers[i], db'.transfers[i], false); }
      }
      SubsetCount(Moving(db'.transfers, scope), Moving(db.transfers, scope));
    }
  }

  /** After any run the warms and flushes in flight are within the global, per-user, per-storage and per-route
      limits, although releases start without being counted against any. */
  lemma {:induction false} LimitsNeverExceeded(cfg: Cluster, run: seq<Action>)
    ensures WithinLimits(cfg, After(cfg, EMPTY, run).transfers)
  {
    EmptyIsSound(cfg);
    if run == [] {
      forall scope ensures |Moving(EMPTY.transfers, scope)| == 0 {
        assert Moving(EMPTY.transfers, scope) == {};
      }
    } else {
      var n := |run| - 1;
      var db := After(cfg, EMPTY, run[..n]);
      LimitsNeverExceeded(cfg, run[..n]);
      RunsAreSound(cfg, EMPTY, run[..n]);
      if run[n].DoSchedule? {
        ScheduleKeepsLimits(cfg, db, run[n].now, run[n].answers);
      } else {
        StepMovesTable(cfg, db, run[n]);
        QuietKeepsLimits(cfg, db, Step(cfg, db, run[n]).0);
      }
    }
  }

  // ---- The recount ----

  /** Every dispatch of the plan is taken by its daemon, and none of them is a release. */
  ghost predicate AllTaken(p: Pass, answers: map<nat, Handover>) {
    forall q :: q in p.taken ==> q.kind.MovesData() && q.id in answers
  }

  /** A dispatch whose row no earlier one of the plan touched starts that row. */
  lemma StartsLast(transfers: map<nat, Transfer>, plan: seq<Dispatch>, taken: seq<QueuedTransfer>,
                   answers: map<nat, Handover>)
    requires PlansRows(transfers, plan, taken) && plan != []
    requires taken[|plan| - 1].kind.MovesData() && taken[|plan| - 1].id in answers
    ensures var before, d := StartAll(transfers, plan[..|plan| - 1], answers), plan[|plan| - 1];
      && d.transferId in before && before[d.transferId] == transfers[d.transferId]
      && StartAll(transfers, plan, answers)
           == before[d.transferId := HandedOver(before[d.transferId], answers[d.transferId], d.bwlimit)]
  {
    var n := |plan| - 1;
    StartFrame(transfers, plan[..n], answers);
    forall k | 0 <= k < n ensures plan[..n][k].transferId != taken[n].id { assert taken[k].id != taken[n].id; }
  }

  lemma {:induction false} StartsEach(transfers: map<nat, Transfer>, plan: seq<Dispatch>, taken: seq<QueuedTransfer>,
                                      answers: map<nat, Handover>, k: nat)
    requires PlansRows(transfers, plan, taken) && k < |taken|
    requires forall q :: q in taken ==> q.kind.MovesData() && q.id in answers
    ensures taken[k].id in StartAll(transfers, plan, answers)
      && StartAll(transfers, plan, answers)[taken[k].id].state == Assigned
  {
    var n := |plan| - 1;
    assert taken[n] in taken;
    StartsLast(transfers, plan, taken, answers);
    if k < n { StartsEach(transfers, plan[..n], taken[..n], answers, k); }
  }

  lemma {:induction false} StartsExactly(transfers: map<nat, Transfer>, plan: seq<Dispatch>, taken: seq<QueuedTransfer>,
                                         answers: map<nat, Handover>, scope: Scope)
    requires PlansRows(transfers, plan, taken)
    requires forall q :: q in taken ==> q.kind.MovesData() && q.id in answers
    ensures |Holding(StartAll(transfers, plan, answers), scope)| == |Holding(transfers, scope)| + TakenIn(taken, scope)
  {
    if plan != [] {
      var n := |plan| - 1;
      assert taken[n] in taken;
      StartsExactly(transfers, plan[..n], taken[..n], answers, scope);
      StartsLast(transfers, plan, taken, answers);
      var before, id := StartAll(transfers, plan[..n], answers), taken[n].id;
      HoldingGains(before, id, HandedOver(before[id], answers[id], plan[n].bwlimit), scope);
    }
  }

  /** A load has no key that counts nothing, so two loads that agree in every scope are the same. */
  ghost predicate Tight(load: Load) {
    && (forall s :: s in load.perStorage ==> load.perStorage[s] > 0)
    && (forall u :: u in load.perUser ==> load.perUser[u] > 0)
    && (forall r :: r in load.perRoute ==> load.perRoute[r] > 0)
  }

  lemma SameCounts<K>(a: map<K, nat>, b: map<K, nat>)
    requires forall k :: k in a ==> a[k] > 0
    requires forall k :: k in b ==> b[k] > 0
    requires forall k :: Get(a, k) == Get(b, k)
    ensures a == b
  {
    forall k ensures k in a <==> k in b { assert Get(a, k) == Get(b, k); }
    forall k | k in a ensures a[k] == b[k] { assert Get(a, k) == Get(b, k); }
  }

  lemma SameLoad(a: Load, b: Load)
    requires Tight(a) && Tight(b) && forall scope :: At(a, scope) == At(b, scope)
    ensures a == b
  {
    assert At(a, Everywhere) == At(b, Everywhere);
    forall s ensures Get(a.perStorage, s) == Get(b.perStorage, s) { assert At(a, OnStorage(s)) == At(b, OnStorage(s)); }
    forall u ensures Get(a.perUser, u) == Get(b.perUser, u) { assert At(a, OfUser(u)) == At(b, OfUser(u)); }
    forall r ensures Get(a.perRoute, r) == Get(b.perRoute, r) { assert At(a, OnRoute(r)) == At(b, OnRoute(r)); }
    SameCounts(a.perStorage, b.perStorage);
    SameCounts(a.perUser, b.perUser);
    SameCounts(a.perRoute, b.perRoute);
  }

  lemma {:induction false} LoadIsTight(transfers: map<nat, Transfer>, n: nat)
    ensures Tight(LoadOf(transfers, n))
  {
    if n > 0 { LoadIsTight(transfers, n - 1); }
  }

  lemma {:induction false} WalkStaysTight(queue: seq<QueuedTransfer>, load: Load, terms: Terms)
    requires Tight(load)
    ensures Tight(Walk(queue, load, terms).load)
  {
    if queue != [] { WalkStaysTight(queue[..|queue| - 1], load, terms); }
  }

  /** After a pass in which every daemon takes what it is offered and no release waits, _load recounts
      exactly the counters the plan ended with. */
  lemma RecountAgrees(cfg: Cluster, db: Database, now: int, answers: map<nat, Handover>)
    requires Linked(db) && AllTaken(Planned(cfg, db, now), answers)
    ensures LoadOf(ScheduleOnce(cfg, db, now, answers).transfers, db.nextTransfer) == Planned(cfg, db, now).load
  {
    var p, after := Planned(cfg, db, now), ScheduleOnce(cfg, db, now, answers);
    PassPlansRows(cfg, db, now);
    StartFrame(db.transfers, p.plan, answers);
    LoadIsTight(db.transfers, db.nextTransfer);
    LoadIsTight(after.transfers, db.nextTransfer);
    WalkStaysTight(Ordered(cfg, db, now), LoadOf(db.transfers, db.nextTransfer), TermsOf(cfg, db));
    forall scope ensures At(LoadOf(after.transfers, db.nextTransfer), scope) == At(p.load, scope) {
      StartsExactly(db.transfers, p.plan, p.taken, answers, scope);
      WalkCounts(Ordered(cfg, db, now), LoadOf(db.transfers, db.nextTransfer), TermsOf(cfg, db), scope);
      LoadCountsTable(db, scope);
      LoadCountsTable(after, scope);
    }
    SameLoad(LoadOf(after.transfers, db.nextTransfer), p.load);
  }

  /** A second pass at the same clock and drain set plans nothing, in whatever order it takes the queue. */
  lemma SecondPassStartsNothing(cfg: Cluster, db: Database, now: int, answers: map<nat, Handover>,
                                again: map<nat, Handover>)
    requires Linked(db) && AllTaken(Planned(cfg, db, now), answers)
    ensures var after := ScheduleOnce(cfg, db, now, answers);
      Planned(cfg, after, now).plan == [] && ScheduleOnce(cfg, after, now, again) == after
  {
    var p, after := Planned(cfg, db, now), ScheduleOnce(cfg, db, now, answers);
    RecountAgrees(cfg, db, now, answers);
    PassPlansRows(cfg, db, now);
    OrderedRows(cfg, db, now);
    OrderedRows(cfg, after, now);
    StartFrame(db.transfers, p.plan, answers);
    forall q | q in Ordered(cfg, after, now) ensures !Fits(q, p.load, TermsOf(cfg, db)) {
      forall k | 0 <= k < |p.taken| ensures p.taken[k].id != q.id {
        StartsEach(db.transfers, p.plan, p.taken, answers, k);
      }
      assert after.transfers[q.id] == db.transfers[q.id];
      assert q in Ordered(cfg, db, now) && q !in p.taken;
      PlanIsMaximal(Ordered(cfg, db, now), LoadOf(db.transfers, db.nextTransfer), TermsOf(cfg, db), q);
      FitsIff(q, p.load, TermsOf(cfg, db));
    }
    NothingFits(Ordered(cfg, after, now), p.load, TermsOf(cfg, db));
  }

  // ---- The order and the wait, as users see them ----

  /** Of two waiting transfers of one user the older is offered first, and the lower id of two of the same age. */
  lemma OlderFirst(cfg: Cluster, db: Database, now: int, j: nat, k: nat)
    requires j < k < |Ordered(cfg, db, now)| && Ordered(cfg, db, now)[j].user == Ordered(cfg, db, now)[k].user
    ensures var i, n := Ordered(cfg, db, now)[j].id, Ordered(cfg, db, now)[k].id;
      && i in db.transfers && n in db.transfers && i != n
      && var t, u := db.transfers[i], db.transfers[n];
         t.submittedAt < u.submittedAt || (t.submittedAt == u.submittedAt && i < n)
  {
    var queue, waiting := Ordered(cfg, db, now), Waiting(db.transfers, now, db.nextTransfer);
    var owed := AccountsFor(db.accounts, UsersOf(waiting), now, cfg.decay);
    OrderedRows(cfg, db, now);
    OrderQueueSorts(waiting, owed, cfg.decay, now);
    var ranks := RankAll(queue, owed, cfg.decay, now);
    assert AtOrBefore(ranks[j], ranks[k]);
    assert queue[j] in queue && queue[k] in queue;
  }

  /** What a pass starts was submitted, moves data, and is past its backoff. */
  lemma StartsOnlyOffered(cfg: Cluster, db: Database, now: int, answers: map<nat, Handover>, i: nat)
    requires i in db.transfers && i in ScheduleOnce(cfg, db, now, answers).transfers
    requires ScheduleOnce(cfg, db, now, answers).transfers[i] != db.transfers[i]
    ensures db.transfers[i].state == Submitted
    ensures db.transfers[i].retryAfter.Some? ==> db.transfers[i].retryAfter.value <= now
  {
    var p := Planned(cfg, db, now);
    PassPlansRows(cfg, db, now);
    StartFrame(db.transfers, p.plan, answers);
    var k :| 0 <= k < |p.plan| && p.plan[k].transferId == i;
    OrderedRows(cfg, db, now);
    TakenFromQueue(Ordered(cfg, db, now), LoadOf(db.transfers, db.nextTransfer), TermsOf(cfg, db));
    assert p.taken[k] in p.taken;
  }

  /** A retry waits out its backoff: until then every pass leaves it where it is. */
  lemma BackoffHolds(cfg: Cluster, db: Database, e: Event, now: int, store: Option<DeleteAnswer>, later: int,
                     answers: map<nat, Handover>)
    requires ApplyEvent(cfg, db, e, now, store).1 == Done && e.kind == FailedEvent
    requires ApplyEvent(cfg, db, e, now, store).0.transfers[e.transferId].state == Submitted
    requires later < now + cfg.backoff
    ensures var after := ApplyEvent(cfg, db, e, now, store).0;
      && e.transferId in after.transfers
      && e.transferId in ScheduleOnce(cfg, after, later, answers).transfers
      && ScheduleOnce(cfg, after, later, answers).transfers[e.transferId] == after.transfers[e.transferId]
  {
    var after := ApplyEvent(cfg, db, e, now, store).0;
    assert after.transfers[e.transferId].retryAfter == Some(now + cfg.backoff);
    StartFrame(after.transfers, Planned(cfg, after, later).plan, answers);
    if ScheduleOnce(cfg, after, later, answers).transfers[e.transferId] != after.transfers[e.transferId] {
      StartsOnlyOffered(cfg, after, later, answers, e.transferId);
    }
  }
}
