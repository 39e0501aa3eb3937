/** The dispatch walk (src/stashd/domain/scheduling.py): what fits in one pass, and how fast it may go. */
module Scheduling {
  import opened Options
  import opened Transfers

  datatype Route = Route(source: string, target: string)

  datatype QueuedTransfer = QueuedTransfer(id: nat, user: string, kind: Kind, route: Route, bytesTotal: nat,
                                           submittedAt: int) {
    /** The storages whose slots the transfer uses: two, or one if it starts and ends on the same. */
    function Storages(): set<string> { {route.source, route.target} }
  }

  datatype ConcurrencyLimits = ConcurrencyLimits(global_: nat, perStorage: nat, perUser: nat, perRoute: nat)

  datatype BandwidthLimits = BandwidthLimits(perRouteAggregate: nat, maxPerTransfer: nat, minPerTransfer: nat)

  /** The counters a plan is made against; what no counter mentions stands at zero. */
  datatype Load = Load(total: nat, perStorage: map<string, nat>, perUser: map<string, nat>, perRoute: map<Route, nat>)

  const IDLE := Load(0, map[], map[], map[])

  /** What one pass is held to: the limits of the config and the storages that are drained. */
  datatype Terms = Terms(limits: ConcurrencyLimits, bandwidth: BandwidthLimits, drained: set<string>)

  datatype Dispatch = Dispatch(transferId: nat, bwlimit: Option<int>)

  function BandwidthShare(active: nat, limits: BandwidthLimits): int {
    var share := limits.perRouteAggregate / (active + 1);
    var capped := if share <= limits.maxPerTransfer then share else limits.maxPerTransfer;
    if capped >= limits.minPerTransfer then capped else limits.minPerTransfer
  }

  // ---- Scopes: everything a limit is counted over ----

  datatype Scope = Everywhere | OnStorage(storage: string) | OfUser(user: string) | OnRoute(route: Route)

  predicate Takes(q: QueuedTransfer, scope: Scope) {
    match scope
    case Everywhere => true
    case OnStorage(s) => s in q.Storages()
    case OfUser(u) => q.user == u
    case OnRoute(r) => q.kind.MovesData() && q.route == r
  }

  function LimitOf(limits: ConcurrencyLimits, scope: Scope): nat {
    match scope
    case Everywhere => limits.global_
    case OnStorage(_) => limits.perStorage
    case OfUser(_) => limits.perUser
    case OnRoute(_) => limits.perRoute
  }

  function Get<K(==)>(counts: map<K, nat>, key: K): nat {
    if key in counts then counts[key] else 0
  }

  function Bump<K(==)>(counts: map<K, nat>, key: K): map<K, nat> {
    counts[key := Get(counts, key) + 1]
  }

  function At(load: Load, scope: Scope): nat {
    match scope
    case Everywhere => load.total
    case OnStorage(s) => Get(load.perStorage, s)
    case OfUser(u) => Get(load.perUser, u)
    case OnRoute(r) => Get(load.perRoute, r)
  }

  /** The load with one more transfer in it, counted once in every scope it takes a slot of. */
  function Occupy(load: Load, q: QueuedTransfer): (l: Load)
    ensures forall scope :: At(l, scope) == At(load, scope) + (if Takes(q, scope) then 1 else 0)
  {
    Load(
      load.total + 1,
      map s | s in load.perStorage.Keys + q.Storages() ::
        Get(load.perStorage, s) + (if s in q.Storages() then 1 else 0),
      Bump(load.perUser, q.user),
      if q.kind.MovesData() then Bump(load.perRoute, q.route) else load.perRoute)
  }

  // ---- The walk ----

  /** The transfer touches no drained storage and every limit it counts against has room. */
  predicate Fits(q: QueuedTransfer, load: Load, terms: Terms) {
    && q.Storages() !! terms.drained
    && load.total < terms.limits.global_
    && (forall s :: s in q.Storages() ==> Get(load.perStorage, s) < terms.limits.perStorage)
    && Get(load.perUser, q.user) < terms.limits.perUser
    && (q.kind.MovesData() ==> Get(load.perRoute, q.route) < terms.limits.perRoute)
  }

  function DispatchOf(q: QueuedTransfer, load: Load, bandwidth: BandwidthLimits): Dispatch {
    Dispatch(q.id, if q.kind.MovesData() then Some(BandwidthShare(Get(load.perRoute, q.route), bandwidth)) else None)
  }

  datatype Pass = Pass(plan: seq<Dispatch>, taken: seq<QueuedTransfer>, load: Load)

  /** The plan for a queue, the entries it takes and the counters it ends with. */
  function Walk(queue: seq<QueuedTransfer>, load: Load, terms: Terms): (p: Pass)
    ensures |p.plan| == |p.taken|
  {
    if queue == [] then Pass([], [], load)
    else
      var before := Walk(queue[..|queue| - 1], load, terms);
      var q := queue[|queue| - 1];
      if Fits(q, before.load, terms)
      then Pass(before.plan + [DispatchOf(q, before.load, terms.bandwidth)], before.taken + [q], Occupy(before.load, q))
      else before
  }

  /** plan_dispatch: one loop over the queue, counting what it takes as it goes. */
  method PlanDispatch(queue: seq<QueuedTransfer>, load: Load, terms: Terms)
    returns (plan: seq<Dispatch>)
    ensures plan == Walk(queue, load, terms).plan
  {
    var total: nat, perStorage: map<string, nat> := load.total, load.perStorage;
    var perUser: map<string, nat>, perRoute: map<Route, nat> := load.perUser, load.perRoute;
    plan := [];
    for i := 0 to |queue|
      invariant Walk(queue[..i], load, terms).plan == plan
      invariant Walk(queue[..i], load, terms).load == Load(total, perStorage, perUser, perRoute)
    {
      var q := queue[i];
      ghost var before := Walk(queue[..i], load, terms);
      WalkNext(queue, load, terms, i);
      var storages := q.Storages();
      FitsByParts(q, before.load, terms);
      if storages * terms.drained != {} { continue; }
      if total >= terms.limits.global_ { continue; }
      if exists s :: s in storages && Get(perStorage, s) >= terms.limits.perStorage { continue; }
      if Get(perUser, q.user) >= terms.limits.perUser { continue; }
      if q.kind.MovesData() && Get(perRoute, q.route) >= terms.limits.perRoute { continue; }

      var bwlimit := None;
      if q.kind.MovesData() {
        bwlimit := Some(BandwidthShare(Get(perRoute, q.route), terms.bandwidth));
      }
      plan := plan + [Dispatch(q.id, bwlimit)];

      total := total + 1;
      perUser := perUser[q.user := Get(perUser, q.user) + 1];
      perStorage := CountStorages(perStorage, storages);
      if q.kind.MovesData() {
        perRoute := perRoute[q.route := Get(perRoute, q.route) + 1];
      }
      assert Occupy(before.load, q) == Load(total, perStorage, perUser, perRoute);
    }
    assert queue[..|queue|] == queue;
  }

  lemma WalkNext(queue: seq<QueuedTransfer>, load: Load, terms: Terms, i: nat)
    requires i < |queue|
    ensures var q, before := queue[i], Walk(queue[..i], load, terms);
      Walk(queue[..i + 1], load, terms)
      == if Fits(q, before.load, terms)
         then Pass(before.plan + [DispatchOf(q, before.load, terms.bandwidth)], before.taken + [q],
                   Occupy(before.load, q))
         else before
  {
    assert queue[..i + 1][..i] == queue[..i] && queue[..i + 1][i] == queue[i];
  }

  /** What the loop tests one after the other. */
  lemma FitsByParts(q: QueuedTransfer, load: Load, terms: Terms)
    ensures Fits(q, load, terms)
      <==> && q.Storages() * terms.drained == {}
           && load.total < terms.limits.global_
           && !(exists s :: s in q.Storages() && Get(load.perStorage, s) >= terms.limits.perStorage)
           && Get(load.perUser, q.user) < terms.limits.perUser
           && (q.kind.MovesData() ==> Get(load.perRoute, q.route) < terms.limits.perRoute)
  {
    DisjointIff(q.Storages(), terms.drained);
  }

  /** The inner loop both the walk and the recount run over a transfer's two ends. */
  method CountStorages(perStorage: map<string, nat>, storages: set<string>) returns (counts: map<string, nat>)
    ensures counts == map s | s in perStorage.Keys + storages :: Get(perStorage, s) + (if s in storages then 1 else 0)
  {
    counts := perStorage;
    var rest := storages;
    while rest != {}
      invariant rest <= storages
      invariant counts == map s | s in perStorage.Keys + (storages - rest) ::
        Get(perStorage, s) + (if s in storages - rest then 1 else 0)
    {
      var s :| s in rest;
      counts := counts[s := Get(counts, s) + 1];
      rest := rest - {s};
    }
    assert storages - rest == storages;
  }

  // ---- What a plan promises ----

  function TakenIn(taken: seq<QueuedTransfer>, scope: Scope): nat {
    if taken == [] then 0
    else TakenIn(taken[..|taken| - 1], scope) + (if Takes(taken[|taken| - 1], scope) then 1 else 0)
  }

  /** The counters end at what they started with plus what was taken, and a scope the plan touched
      ends within its limit. */
  lemma {:induction false} WalkCounts(queue: seq<QueuedTransfer>, load: Load, terms: Terms, scope: Scope)
    ensures var p := Walk(queue, load, terms);
      && At(p.load, scope) == At(load, scope) + TakenIn(p.taken, scope)
      && (TakenIn(p.taken, scope) > 0 ==> At(p.load, scope) <= LimitOf(terms.limits, scope))
  {
    if queue != [] {
      var n := |queue| - 1;
      WalkCounts(queue[..n], load, terms, scope);
      var before := Walk(queue[..n], load, terms);
      var q := queue[n];
      if Fits(q, before.load, terms) {
        assert (before.taken + [q])[..|before.taken|] == before.taken;
        if Takes(q, scope) { FitsHasRoom(q, before.load, terms, scope); }
      }
    }
  }

  lemma FitsHasRoom(q: QueuedTransfer, load: Load, terms: Terms, scope: Scope)
    requires Fits(q, load, terms) && Takes(q, scope)
    ensures At(load, scope) < LimitOf(terms.limits, scope)
  {
  }

  /** There is room for the transfer in every scope it takes a slot of. */
  ghost predicate HasRoom(q: QueuedTransfer, load: Load, limits: ConcurrencyLimits) {
    forall scope :: Takes(q, scope) ==> At(load, scope) < LimitOf(limits, scope)
  }

  lemma DisjointIff(a: set<string>, b: set<string>)
    ensures a !! b <==> a * b == {}
  {
    forall s | s in a && s in b ensures s in a * b {}
    forall s | s in a * b ensures s in a && s in b {}
  }

  lemma FitsIff(q: QueuedTransfer, load: Load, terms: Terms)
    ensures Fits(q, load, terms) <==> q.Storages() !! terms.drained && HasRoom(q, load, terms.limits)
  {
    if HasRoom(q, load, terms.limits) {
      assert Takes(q, Everywhere) && Takes(q, OfUser(q.user));
      assert At(load, Everywhere) < LimitOf(terms.limits, Everywhere);
      assert At(load, OfUser(q.user)) < LimitOf(terms.limits, OfUser(q.user));
      forall s | s in q.Storages() ensures Get(load.perStorage, s) < terms.limits.perStorage {
        assert Takes(q, OnStorage(s));
      }
      if q.kind.MovesData() { assert Takes(q, OnRoute(q.route)); }
    }
    if Fits(q, load, terms) {
      forall scope | Takes(q, scope) ensures At(load, scope) < LimitOf(terms.limits, scope) {
        FitsHasRoom(q, load, terms, scope);
      }
    }
  }

  /** Counters only grow, so whatever did not fit at some point of the walk does not fit at its end. */
  lemma NeverFitsAgain(q: QueuedTransfer, early: Load, late: Load, terms: Terms)
    requires forall scope :: At(early, scope) <= At(late, scope)
    requires Fits(q, late, terms)
    ensures Fits(q, early, terms)
  {
    assert At(early, Everywhere) <= At(late, Everywhere);
    assert At(early, OfUser(q.user)) <= At(late, OfUser(q.user));
    assert At(early, OnRoute(q.route)) <= At(late, OnRoute(q.route));
    forall s | s in q.Storages() ensures Get(early.perStorage, s) < terms.limits.perStorage {
      assert At(early, OnStorage(s)) <= At(late, OnStorage(s));
    }
  }

  lemma {:induction false} Unfit(queue: seq<QueuedTransfer>, load: Load, terms: Terms, q: QueuedTransfer)
    requires q in queue
    ensures var p := Walk(queue, load, terms);
      q in p.taken || !Fits(q, p.load, terms)
  {
    var n := |queue| - 1;
    var before := Walk(queue[..n], load, terms);
    var p := Walk(queue, load, terms);
    if q in queue[..n] {
      Unfit(queue[..n], load, terms, q);
      if Fits(q, p.load, terms) {
        forall scope ensures At(before.load, scope) <= At(p.load, scope) {}
        NeverFitsAgain(q, before.load, p.load, terms);
      }
    } else {
      assert q == queue[n];
      assert Fits(q, before.load, terms) ==> p.taken[|before.taken|] == q;
    }
  }

  /** The plan is maximal: every entry is either taken or touches a drained storage or is, under the final counters, at
      a limit. */
  lemma PlanIsMaximal(queue: seq<QueuedTransfer>, load: Load, terms: Terms, q: QueuedTransfer)
    requires q in queue
    ensures var p := Walk(queue, load, terms);
      || q in p.taken
      || q.Storages() * terms.drained != {}
      || exists scope :: Takes(q, scope) && At(p.load, scope) >= LimitOf(terms.limits, scope)
  {
    Unfit(queue, load, terms, q);
    FitsIff(q, Walk(queue, load, terms).load, terms);
    DisjointIff(q.Storages(), terms.drained);
  }

  /** An entry is never a barrier: planning a prefix of the queue gives a prefix of the whole plan. */
  lemma {:induction false} PrefixOfPlan(queue: seq<QueuedTransfer>, k: nat, load: Load, terms: Terms)
    requires k <= |queue|
    ensures Walk(queue[..k], load, terms).plan <= Walk(queue, load, terms).plan
    ensures Walk(queue[..k], load, terms).taken <= Walk(queue, load, terms).taken
  {
    if k == |queue| {
      assert queue[..k] == queue;
    } else {
      PrefixOfPlan(queue[..|queue| - 1], k, load, terms);
      assert queue[..|queue| - 1][..k] == queue[..k];
    }
  }

  /** What is taken is taken from the queue, and touches no drained storage. */
  lemma {:induction false} TakenFromQueue(queue: seq<QueuedTransfer>, load: Load, terms: Terms)
    ensures var p := Walk(queue, load, terms);
      && (forall q :: q in p.taken ==> q in queue && q.Storages() !! terms.drained)
      && (forall k ::
            0 <= k < |p.taken|
            ==> p.plan[k].transferId == p.taken[k].id && (p.plan[k].bwlimit.Some? <==> p.taken[k].kind.MovesData()))
  {
    if queue != [] { TakenFromQueue(queue[..|queue| - 1], load, terms); }
  }

  ghost predicate DistinctIds(queue: seq<QueuedTransfer>) {
    forall i, j :: 0 <= i < j < |queue| ==> queue[i].id != queue[j].id
  }

  /** Each entry is taken at most once. */
  lemma {:induction false} TakenOnce(queue: seq<QueuedTransfer>, load: Load, terms: Terms)
    requires DistinctIds(queue)
    ensures DistinctIds(Walk(queue, load, terms).taken)
  {
    if queue != [] {
      var n := |queue| - 1;
      TakenOnce(queue[..n], load, terms);
      TakenFromQueue(queue[..n], load, terms);
      forall q | q in Walk(queue[..n], load, terms).taken ensures q.id != queue[n].id {
        var i :| 0 <= i < n && queue[..n][i] == q;
      }
    }
  }

  // ---- Which entries are taken ----

  /** The entries taken before the k-th that use a slot of a scope. */
  function Ahead(queue: seq<QueuedTransfer>, taken: seq<QueuedTransfer>, k: nat, scope: Scope): set<nat>
    requires k <= |queue|
  {
    if k == 0 then {}
    else
      var q := queue[k - 1];
      Ahead(queue, taken, k - 1, scope) + (if q in taken && Takes(q, scope) then {q.id} else {})
  }

  lemma {:induction false} AheadIff(queue: seq<QueuedTransfer>, taken: seq<QueuedTransfer>, k: nat, scope: Scope,
                                    id: nat)
    requires k <= |queue|
    ensures id in Ahead(queue, taken, k, scope)
       <==> exists j :: 0 <= j < k && queue[j] in taken && Takes(queue[j], scope) && queue[j].id == id
  {
    if k > 0 { AheadIff(queue, taken, k - 1, scope, id); }
  }

  lemma NotTakenBefore(queue: seq<QueuedTransfer>, load: Load, terms: Terms)
    requires DistinctIds(queue) && queue != []
    ensures queue[|queue| - 1] !in Walk(queue[..|queue| - 1], load, terms).taken
  {
    var n := |queue| - 1;
    TakenFromQueue(queue[..n], load, terms);
    forall q | q in Walk(queue[..n], load, terms).taken ensures q != queue[n] {
      var i :| 0 <= i < n && queue[..n][i] == q;
    }
  }

  /** Whether the k-th entry is taken is settled when the walk reaches it. */
  lemma {:induction false} TakenWhenReached(queue: seq<QueuedTransfer>, load: Load, terms: Terms, k: nat)
    requires DistinctIds(queue) && k < |queue|
    ensures queue[k] in Walk(queue, load, terms).taken <==> Fits(queue[k], Walk(queue[..k], load, terms).load, terms)
  {
    var n := |queue| - 1;
    if k < n {
      TakenWhenReached(queue[..n], load, terms, k);
      assert queue[..n][..k] == queue[..k];
      assert queue[k].id != queue[n].id;
    } else {
      NotTakenBefore(queue, load, terms);
      var before := Walk(queue[..n], load, terms);
      assert Fits(queue[n], before.load, terms) ==> Walk(queue, load, terms).taken[|before.taken|] == queue[n];
    }
  }

  /** And so is the limit it is given. */
  lemma {:induction false} DispatchedWhenReached(queue: seq<QueuedTransfer>, load: Load, terms: Terms, k: nat)
    requires DistinctIds(queue) && k < |queue| && queue[k] in Walk(queue, load, terms).taken
    ensures var p, reached := Walk(queue, load, terms), Walk(queue[..k], load, terms);
      && |reached.plan| < |p.plan|
      && p.taken[|reached.plan|] == queue[k]
      && p.plan[|reached.plan|] == DispatchOf(queue[k], reached.load, terms.bandwidth)
  {
    TakenWhenReached(queue, load, terms, k);
    PrefixOfPlan(queue, k + 1, load, terms);
    assert queue[..k + 1][..k] == queue[..k];
  }

  lemma OneMoreTaken(queue: seq<QueuedTransfer>, load: Load, terms: Terms, m: nat, scope: Scope)
    requires m < |queue|
    ensures var q, before := queue[m], Walk(queue[..m], load, terms);
      TakenIn(Walk(queue[..m + 1], load, terms).taken, scope)
      == TakenIn(before.taken, scope) + (if Fits(q, before.load, terms) && Takes(q, scope) then 1 else 0)
  {
    var q, before := queue[m], Walk(queue[..m], load, terms);
    assert queue[..m + 1][..m] == queue[..m] && queue[..m + 1][m] == q;
    assert (before.taken + [q])[..|before.taken|] == before.taken;
  }

  lemma OneMoreAhead(queue: seq<QueuedTransfer>, taken: seq<QueuedTransfer>, m: nat, scope: Scope)
    requires DistinctIds(queue) && m < |queue|
    ensures |Ahead(queue, taken, m + 1, scope)|
         == |Ahead(queue, taken, m, scope)| + (if queue[m] in taken && Takes(queue[m], scope) then 1 else 0)
  {
    AheadIff(queue, taken, m, scope, queue[m].id);
  }

  lemma {:induction false} TakenAhead(queue: seq<QueuedTransfer>, load: Load, terms: Terms, k: nat, scope: Scope)
    requires DistinctIds(queue) && k <= |queue|
    ensures TakenIn(Walk(queue[..k], load, terms).taken, scope)
         == |Ahead(queue, Walk(queue, load, terms).taken, k, scope)|
  {
    if k > 0 {
      TakenAhead(queue, load, terms, k - 1, scope);
      TakenWhenReached(queue, load, terms, k - 1);
      OneMoreTaken(queue, load, terms, k - 1, scope);
      OneMoreAhead(queue, Walk(queue, load, terms).taken, k - 1, scope);
    } else {
      assert queue[..0] == [];
      assert Ahead(queue, Walk(queue, load, terms).taken, 0, scope) == {};
    }
  }

  lemma CountedWhenReached(queue: seq<QueuedTransfer>, load: Load, terms: Terms, k: nat, scope: Scope)
    requires DistinctIds(queue) && k <= |queue|
    ensures At(Walk(queue[..k], load, terms).load, scope)
         == At(load, scope) + |Ahead(queue, Walk(queue, load, terms).taken, k, scope)|
  {
    WalkCounts(queue[..k], load, terms, scope);
    TakenAhead(queue, load, terms, k, scope);
  }

  /** In every scope the k-th entry takes a slot of, the load and what is taken ahead of it leave one. */
  ghost predicate LeftRoom(queue: seq<QueuedTransfer>, taken: seq<QueuedTransfer>, k: nat, load: Load,
                           limits: ConcurrencyLimits)
    requires k < |queue|
  {
    forall scope :: Takes(queue[k], scope) ==>
      At(load, scope) + |Ahead(queue, taken, k, scope)| < LimitOf(limits, scope)
  }

  /** An entry is taken if and only if it touches no drained storage and, in every scope it takes a slot of, the load
      and what is taken ahead of it leave one. */
  lemma TakenIff(queue: seq<QueuedTransfer>, load: Load, terms: Terms, k: nat)
    requires DistinctIds(queue) && k < |queue|
    ensures var taken := Walk(queue, load, terms).taken;
      queue[k] in taken
      <==> queue[k].Storages() * terms.drained == {} && LeftRoom(queue, taken, k, load, terms.limits)
  {
    var taken, reached := Walk(queue, load, terms).taken, Walk(queue[..k], load, terms);
    TakenWhenReached(queue, load, terms, k);
    FitsIff(queue[k], reached.load, terms);
    DisjointIff(queue[k].Storages(), terms.drained);
    forall scope ensures At(reached.load, scope) == At(load, scope) + |Ahead(queue, taken, k, scope)| {
      CountedWhenReached(queue, load, terms, k, scope);
    }
  }

  /** A queue of which nothing fits is passed over entirely. */
  lemma {:induction false} NothingFits(queue: seq<QueuedTransfer>, load: Load, terms: Terms)
    requires forall q :: q in queue ==> !Fits(q, load, terms)
    ensures Walk(queue, load, terms) == Pass([], [], load)
  {
    if queue != [] {
      NothingFits(queue[..|queue| - 1], load, terms);
      assert queue[|queue| - 1] in queue;
    }
  }

  // ---- Bandwidth ----

  /** The share is within its bounds, falls as a route fills, and keeps the route within its
      aggregate unless it is already the minimum. */
  lemma ShareBounds(active: nat, more: nat, limits: BandwidthLimits)
    requires limits.minPerTransfer <= limits.maxPerTransfer && active <= more
    ensures limits.minPerTransfer <= BandwidthShare(active, limits) <= limits.maxPerTransfer
    ensures BandwidthShare(more, limits) <= BandwidthShare(active, limits)
    ensures BandwidthShare(active, limits) * (active + 1) <= limits.perRouteAggregate
         || BandwidthShare(active, limits) == limits.minPerTransfer
  {
    var a := limits.perRouteAggregate;
    QuotientFalls(a, active + 1, more + 1);
    var share := BandwidthShare(active, limits);
    if share != limits.minPerTransfer {
      assert share <= a / (active + 1);
      ProductGrows(share, a / (active + 1), active + 1);
      assert a / (active + 1) * (active + 1) <= a;
    }
  }

  /** The limit of a transfer when `active` others use its route: as much as keeps them all within the aggregate, no
      more than the maximum and no less than the minimum. */
  predicate IsShare(share: int, active: nat, limits: BandwidthLimits) {
    && limits.minPerTransfer <= share <= limits.maxPerTransfer
    && (share == limits.minPerTransfer || share * (active + 1) <= limits.perRouteAggregate)
    && (share == limits.maxPerTransfer || (share + 1) * (active + 1) > limits.perRouteAggregate)
  }

  lemma GivenIsShare(active: nat, limits: BandwidthLimits)
    requires limits.minPerTransfer <= limits.maxPerTransfer
    ensures IsShare(BandwidthShare(active, limits), active, limits)
  {
    var a, d, given := limits.perRouteAggregate, active + 1, BandwidthShare(active, limits);
    ShareBounds(active, active, limits);
    if given < limits.maxPerTransfer {
      ProductGrows(a / d + 1, given + 1, d);
      assert (a / d + 1) * d > a;
    }
  }

  lemma NoGreaterShare(share: int, more: int, active: nat, limits: BandwidthLimits)
    requires IsShare(share, active, limits) && IsShare(more, active, limits)
    ensures more <= share
  {
    if share < more { ProductGrows(share + 1, more, active + 1); }
  }

  /** There is one such limit, and it is the one that is given out. */
  lemma ShareIff(share: int, active: nat, limits: BandwidthLimits)
    requires limits.minPerTransfer <= limits.maxPerTransfer
    ensures IsShare(share, active, limits) <==> share == BandwidthShare(active, limits)
  {
    GivenIsShare(active, limits);
    if IsShare(share, active, limits) {
      NoGreaterShare(share, BandwidthShare(active, limits), active, limits);
      NoGreaterShare(BandwidthShare(active, limits), share, active, limits);
    }
  }

  lemma QuotientFalls(a: nat, d: nat, e: nat)
    requires 0 < d <= e
    ensures a / e <= a / d
  {
    ProductGrows(d, e, a / e);
    assert a / e * e <= a < (a / d + 1) * d;
    if a / d < a / e { ProductGrows(a / d + 1, a / e, d); }
  }

  lemma ProductGrows(x: int, y: int, c: nat)
    requires x <= y
    ensures x * c <= y * c
  {
  }

  /** A limit in the plan is the share its route had when the walk reached it. */
  lemma {:induction false} LimitsAlongPlan(queue: seq<QueuedTransfer>, load: Load, terms: Terms, p: Pass, k: nat)
      returns (reached: Load)
    requires p == Walk(queue, load, terms) && k < |p.plan|
    ensures p.plan[k] == DispatchOf(p.taken[k], reached, terms.bandwidth)
    ensures forall scope :: At(reached, scope) == At(load, scope) + TakenIn(p.taken[..k], scope)
  {
    var n := |queue| - 1;
    var before := Walk(queue[..n], load, terms);
    if k < |before.plan| {
      reached := LimitsAlongPlan(queue[..n], load, terms, before, k);
      assert p.taken[..k] == before.taken[..k];
    } else {
      reached := before.load;
      assert p.taken[..k] == before.taken;
      forall scope { WalkCounts(queue[..n], load, terms, scope); }
    }
  }

  lemma {:induction false} TakenGrows(taken: seq<QueuedTransfer>, i: nat, j: nat, scope: Scope)
    requires i <= j <= |taken|
    ensures TakenIn(taken[..i], scope) <= TakenIn(taken[..j], scope)
  {
    if i < j {
      TakenGrows(taken, i, j - 1, scope);
      assert taken[..j][..j - 1] == taken[..j - 1];
    }
  }

  /** Within one pass every limit lies between the minimum and the maximum, limits on one route never
      increase along the plan, and a limit times the number then active on its route is within the
      aggregate unless it is the minimum. */
  lemma PassBandwidth(queue: seq<QueuedTransfer>, load: Load, terms: Terms, p: Pass, i: nat, j: nat)
    requires terms.bandwidth.minPerTransfer <= terms.bandwidth.maxPerTransfer
    requires p == Walk(queue, load, terms) && i <= j < |p.plan|
    requires p.taken[i].kind.MovesData() && p.taken[j].kind.MovesData() && p.taken[i].route == p.taken[j].route
    ensures p.plan[i].bwlimit.Some? && p.plan[j].bwlimit.Some?
    ensures terms.bandwidth.minPerTransfer <= p.plan[j].bwlimit.value <= p.plan[i].bwlimit.value
      <= terms.bandwidth.maxPerTransfer
    ensures p.plan[i].bwlimit.value == terms.bandwidth.minPerTransfer
         || p.plan[i].bwlimit.value
           * (At(load, OnRoute(p.taken[i].route)) + TakenIn(p.taken[..i + 1], OnRoute(p.taken[i].route)))
            <= terms.bandwidth.perRouteAggregate
  {
    var scope := OnRoute(p.taken[i].route);
    var early := LimitsAlongPlan(queue, load, terms, p, i);
    var late := LimitsAlongPlan(queue, load, terms, p, j);
    TakenGrows(p.taken, i, j, scope);
    assert p.taken[..i + 1][..i] == p.taken[..i];
    SharesFall(At(early, scope), At(late, scope),
               At(load, scope) + TakenIn(p.taken[..i + 1], scope), terms.bandwidth);
  }

  lemma SharesFall(early: nat, late: nat, active: nat, limits: BandwidthLimits)
    requires limits.minPerTransfer <= limits.maxPerTransfer && early <= late && active == early + 1
    ensures var share := BandwidthShare(early, limits);
      && limits.minPerTransfer <= BandwidthShare(late, limits) <= share <= limits.maxPerTransfer
      && (share == limits.minPerTransfer || share * active <= limits.perRouteAggregate)
  {
    ShareBounds(early, late, limits);
    ShareBounds(late, late, limits);
  }
}
