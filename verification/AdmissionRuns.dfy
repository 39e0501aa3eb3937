/** What is let in, told from the call and the tables, and what a drain keeps out over whole runs. */
module AdmissionRuns {
  import opened Options
  import opened Transfers
  import opened Allocation
  import opened Tables
  import opened Releases
  import opened Events
  import opened Submissions
  import opened Reservations
  import opened Runs
  import opened PassRuns
  import opened FilesetRuns
  import Reconciling
  import References
  import Sums
  import SchedulerLoop
  import FS = Filesets

  // ---- Room ----

  /** The filesets a user has and has not released. */
  function LiveOf(filesets: map<nat, Fileset>, user: string): set<nat> {
    set i | i in filesets && filesets[i].owner == user && filesets[i].state != FS.Released
  }

  /** The count admission reads is how many there are. */
  lemma CountIsHeld(cfg: Cluster, filesets: map<nat, Fileset>, user: string)
    ensures Held(cfg, filesets, CountOf(user)) == |LiveOf(filesets, user)|
  {
    Sums.SumOfOnes(Weights(cfg, filesets, CountOf(user)), LiveOf(filesets, user));
  }

  /** A fileset of the user uses more than it reserves, as far as is known. */
  ghost predicate Overdrawn(db: Database, user: string) {
    exists i :: i in LiveOf(db.filesets, user) && db.filesets[i].overAllocation
  }

  /** There is room for `extra` more bytes of a user on a storage: it takes anything in at all, the user is not
      overdrawn and may have one more fileset, and the bytes fit the user's limit there, the user's limit on all caches,
      and the share of the storage that may be filled. */
  ghost predicate RoomFor(cfg: Cluster, db: Database, user: string, storage: string, extra: int) {
    && extra >= 1 && storage in cfg.storages && storage !in db.drained && !Overdrawn(db, user)
    && |LiveOf(db.filesets, user)| + 1 <= cfg.maxFilesets
    && Held(cfg, db.filesets, OfUserOn(user, storage)) + extra
       <= (if (user, Some(storage)) in cfg.userLimits then cfg.userLimits[(user, Some(storage))]
           else cfg.storages[storage].defaultLimit)
    && Held(cfg, db.filesets, OfUserOnCaches(user)) + extra
       <= (if (user, None) in cfg.userLimits then cfg.userLimits[(user, None)] else cfg.totalLimit)
    && (Held(cfg, db.filesets, AllOn(storage)) + extra) as real
       <= cfg.storages[storage].capacity as real * cfg.storages[storage].fillLimit
  }

  /** In terms of the ceilings: every sum the bytes count in stays within its own. */
  lemma RoomIffCeilings(cfg: Cluster, db: Database, user: string, storage: string, extra: int)
    requires storage in cfg.storages
    ensures RoomFor(cfg, db, user, storage, extra)
      <==> && extra >= 1 && storage !in db.drained && !Overdrawn(db, user)
           && Held(cfg, db.filesets, CountOf(user)) + 1 <= CeilingOf(cfg, CountOf(user))
           && forall slice :: slice in {OfUserOn(user, storage), OfUserOnCaches(user), AllOn(storage)} ==>
                Held(cfg, db.filesets, slice) + extra <= CeilingOf(cfg, slice)
  {
    RoomIffSums(cfg, db, user, storage, extra);
    EachSum(cfg, db, user, storage, extra);
  }

  lemma RoomIffSums(cfg: Cluster, db: Database, user: string, storage: string, extra: int)
    requires storage in cfg.storages
    ensures RoomFor(cfg, db, user, storage, extra)
      <==> && extra >= 1 && storage !in db.drained && !Overdrawn(db, user)
           && Held(cfg, db.filesets, CountOf(user)) + 1 <= CeilingOf(cfg, CountOf(user))
           && Held(cfg, db.filesets, OfUserOn(user, storage)) + extra <= CeilingOf(cfg, OfUserOn(user, storage))
           && Held(cfg, db.filesets, OfUserOnCaches(user)) + extra <= CeilingOf(cfg, OfUserOnCaches(user))
           && Held(cfg, db.filesets, AllOn(storage)) + extra <= CeilingOf(cfg, AllOn(storage))
  {
    CountIsHeld(cfg, db.filesets, user);
    CapacityIff(cfg, storage, Held(cfg, db.filesets, AllOn(storage)) + extra);
    LimitsIff(cfg, user, storage);
  }

  lemma EachSum(cfg: Cluster, db: Database, user: string, storage: string, extra: int)
    ensures (forall slice :: slice in {OfUserOn(user, storage), OfUserOnCaches(user), AllOn(storage)} ==>
              Held(cfg, db.filesets, slice) + extra <= CeilingOf(cfg, slice))
      <==> && Held(cfg, db.filesets, OfUserOn(user, storage)) + extra <= CeilingOf(cfg, OfUserOn(user, storage))
           && Held(cfg, db.filesets, OfUserOnCaches(user)) + extra <= CeilingOf(cfg, OfUserOnCaches(user))
           && Held(cfg, db.filesets, AllOn(storage)) + extra <= CeilingOf(cfg, AllOn(storage))
  {
  }

  lemma CapacityIff(cfg: Cluster, storage: string, n: int)
    requires storage in cfg.storages
    ensures n <= CeilingOf(cfg, AllOn(storage))
       <==> n as real <= cfg.storages[storage].capacity as real * cfg.storages[storage].fillLimit
  {
  }

  lemma LimitsIff(cfg: Cluster, user: string, storage: string)
    requires storage in cfg.storages
    ensures CeilingOf(cfg, OfUserOn(user, storage))
         == (if (user, Some(storage)) in cfg.userLimits then cfg.userLimits[(user, Some(storage))]
             else cfg.storages[storage].defaultLimit)
    ensures CeilingOf(cfg, OfUserOnCaches(user))
         == (if (user, None) in cfg.userLimits then cfg.userLimits[(user, None)] else cfg.totalLimit)
    ensures CeilingOf(cfg, CountOf(user)) == cfg.maxFilesets
  {
  }

  lemma AdmittedIffRoom(cfg: Cluster, db: Database, user: string, storage: string, extra: int)
    requires storage in cfg.storages
    ensures Admit(extra, AdmissionState(cfg, db, user, storage)).None? <==> RoomFor(cfg, db, user, storage, extra)
  {
    RoomIffSums(cfg, db, user, storage, extra);
    ReasonIsRefusal(cfg, db, user, storage, extra);
    CountIsHeld(cfg, db.filesets, user);
  }

  /** The first rule that stands in the way, the ones that depend on no sum first. */
  ghost function ReasonFor(cfg: Cluster, db: Database, user: string, storage: string, extra: int): Option<Refusal>
    requires storage in cfg.storages
  {
    if extra < 1 then Some(Conflict)
    else if storage in db.drained then Some(StorageDrained)
    else if Overdrawn(db, user) then Some(OverAllocation)
    else if |LiveOf(db.filesets, user)| >= cfg.maxFilesets then Some(TooManyFilesets)
    else if Held(cfg, db.filesets, OfUserOn(user, storage)) + extra > CeilingOf(cfg, OfUserOn(user, storage))
    then Some(AllocationLimitExceeded)
    else if Held(cfg, db.filesets, OfUserOnCaches(user)) + extra > CeilingOf(cfg, OfUserOnCaches(user))
    then Some(TotalAllocationLimitExceeded)
    else if Held(cfg, db.filesets, AllOn(storage)) + extra > CeilingOf(cfg, AllOn(storage)) then Some(StorageFull)
    else None
  }

  lemma OverdrawnIff(cfg: Cluster, db: Database, user: string, storage: string)
    requires storage in cfg.storages
    ensures Overdrawn(db, user) <==> AdmissionState(cfg, db, user, storage).overAllocated
  {
    if Overdrawn(db, user) {
      var i :| i in LiveOf(db.filesets, user) && db.filesets[i].overAllocation;
      assert i in db.filesets && Live(db.filesets[i]);
    }
    if i :| i in db.filesets && db.filesets[i].owner == user && db.filesets[i].overAllocation && Live(db.filesets[i]) {
      assert i in LiveOf(db.filesets, user);
    }
  }

  lemma ReasonIsRefusal(cfg: Cluster, db: Database, user: string, storage: string, extra: int)
    requires storage in cfg.storages
    ensures Admit(extra, AdmissionState(cfg, db, user, storage)) == ReasonFor(cfg, db, user, storage, extra)
  {
    OverdrawnIff(cfg, db, user, storage);
    CountIsHeld(cfg, db.filesets, user);
  }

  // ---- The calls that add bytes ----

  ghost predicate NameIsFree(db: Database, owner: string, storage: string, name: string) {
    forall i :: i in LiveOf(db.filesets, owner) ==> db.filesets[i].storage != storage || db.filesets[i].name != name
  }

  lemma FreeIff(db: Database, owner: string, storage: string, name: string)
    ensures NameIsFree(db, owner, storage, name) <==> LiveFileset(db.filesets, owner, storage, name).None?
  {
    var filesetsNamed := LiveIds(db.filesets, owner, storage, name);
    if NameIsFree(db, owner, storage, name) {
      forall i ensures i !in filesetsNamed {
        assert i in filesetsNamed ==> i in LiveOf(db.filesets, owner);
      }
    } else {
      var i :| i in LiveOf(db.filesets, owner) && db.filesets[i].storage == storage && db.filesets[i].name == name;
      assert i in LiveIds(db.filesets, owner, storage, name);
    }
  }

  /** A create gets to its daemon if and only if the storage is a cache, the name is one and is free, and there is room
      for all of it; otherwise it changes nothing. */
  lemma CreateAdmittedIff(cfg: Cluster, db: Database, owner: string, storage: string, name: string, size: int,
                          now: int, answer: CreateAnswer)
    ensures var r := Step(cfg, db, DoCreate(owner, storage, name, size, now, answer));
      && (r.1 in {Done, Raised(DaemonRefused), Raised(Interrupted)}
          <==> && storage in cfg.storages && cfg.storages[storage].cache
               && References.ValidateFilesetName(name).Ok? && NameIsFree(db, owner, storage, name)
               && RoomFor(cfg, db, owner, storage, size))
      && (r.1 !in {Done, Raised(DaemonRefused), Raised(Interrupted)} ==> r.0 == db)
  {
    FreeIff(db, owner, storage, name);
    if storage in cfg.storages { AdmittedIffRoom(cfg, db, owner, storage, size); }
  }

  /** The bytes a warm adds to what is reserved under its name. */
  ghost function Added(db: Database, owner: string, plan: WarmPlan): int {
    var found := LiveFileset(db.filesets, owner, plan.target, plan.name);
    plan.reservation - (if found.Some? then db.filesets[found.value].allocatedBytes else 0)
  }

  /** The transfers a user has in the queue or with a daemon that has not started them. */
  function InQueue(db: Database, user: string): set<nat> {
    set i | i in db.transfers && db.transfers[i].user == user && db.transfers[i].state in {Submitted, Assigned}
  }

  /** A warm gets into the queue if and only if its user's queue is not full and, if it adds bytes, there is room for
      what it adds; otherwise it changes nothing. */
  lemma WarmAdmittedIff(cfg: Cluster, db: Database, owner: string, plan: WarmPlan, now: int, prepared: Option<string>)
    requires Linked(db)
    ensures var r := Step(cfg, db, DoWarm(owner, plan, now, prepared));
      && (db.nextTransfer in r.0.transfers
          <==> && |InQueue(db, owner)| < cfg.queuedPerUser
               && (Added(db, owner, plan) >= 1 ==> RoomFor(cfg, db, owner, plan.target, Added(db, owner, plan))))
      && (db.nextTransfer !in r.0.transfers ==> r.0 == db)
  {
    assert InQueue(db, owner) == Queued(db.transfers, owner);
    if plan.target in cfg.storages { AdmittedIffRoom(cfg, db, owner, plan.target, Added(db, owner, plan)); }
    var a := DoWarm(owner, plan, now, prepared);
    if WarmAdmitted(cfg, db, a) { WarmQueues(cfg, db, a); } else { WarmRefused(cfg, db, a); }
  }

  /** A flush gets into the queue if and only if there is a live fileset of that name that is READY or FAILED, and its
      user's queue is not full; otherwise it changes nothing. */
  lemma FlushAdmittedIff(cfg: Cluster, db: Database, owner: string, flush: FlushPlan, now: int, charged: bool)
    requires Linked(db)
    ensures var r, found := Step(cfg, db, DoFlush(owner, flush, now, charged)),
      LiveFileset(db.filesets, owner, flush.storage, flush.name);
      && (db.nextTransfer in r.0.transfers
          <==> && |InQueue(db, owner)| < cfg.queuedPerUser
               && found.Some? && db.filesets[found.value].state in {FS.Ready, FS.Failed})
      && (db.nextTransfer !in r.0.transfers ==> r.0 == db)
  {
    assert InQueue(db, owner) == Queued(db.transfers, owner);
  }

  /** A resize goes through if and only if the fileset is live, the new size is at least a byte and no less than what is
      used, unless forced, there is room for what it adds, and its daemon sets the quota. It rewrites the reservation
      and nothing else; otherwise it changes nothing. */
  lemma ResizeAdmittedIff(cfg: Cluster, db: Database, id: nat, size: int, force: bool, quotaSet: bool)
    ensures var r := Step(cfg, db, DoResize(id, size, force, quotaSet));
      && (r.1 == Done
          <==> && id in db.filesets && db.filesets[id].state != FS.Released
               && size >= 1 && (force || db.filesets[id].usedBytes <= size) && quotaSet
               && var f := db.filesets[id];
                  size > f.allocatedBytes ==> RoomFor(cfg, db, f.owner, f.storage, size - f.allocatedBytes))
      && r.0 == (if r.1 == Done then db.(filesets := db.filesets[id := db.filesets[id].(allocatedBytes := size)])
                 else db)
  {
    if id in db.filesets {
      if db.filesets[id].storage in cfg.storages {
        var f := db.filesets[id];
        AdmittedIffRoom(cfg, db, f.owner, f.storage, size - f.allocatedBytes);
      }
      ResizedIff(cfg, db, id, size, force, quotaSet);
    }
  }

  lemma ResizedIff(cfg: Cluster, db: Database, id: nat, size: int, force: bool, quotaSet: bool)
    requires id in db.filesets
    ensures var r, f := Resize(cfg, db, id, size, force, quotaSet), db.filesets[id];
      && (r.1 == Done
          <==> && f.state != FS.Released && size >= 1 && (force || f.usedBytes <= size) && quotaSet
               && (size > f.allocatedBytes ==>
                    && f.storage in cfg.storages
                    && Admit(size - f.allocatedBytes, AdmissionState(cfg, db, f.owner, f.storage)).None?))
      && r.0 == (if r.1 == Done then db.(filesets := db.filesets[id := f.(allocatedBytes := size)]) else db)
  {
  }

  /** A create that gets as far as admission is refused for the first rule that stands in its way. */
  lemma CreateRefusedFor(cfg: Cluster, db: Database, a: Action, reason: Refusal)
    requires a.DoCreate? && IsCache(cfg, a.storage) && References.ValidateFilesetName(a.name).Ok?
    requires NameIsFree(db, a.owner, a.storage, a.name)
    ensures Step(cfg, db, a).1 == Raised(Refused(reason))
       <==> ReasonFor(cfg, db, a.owner, a.storage, a.size) == Some(reason)
  {
    FreeIff(db, a.owner, a.storage, a.name);
    ReasonIsRefusal(cfg, db, a.owner, a.storage, a.size);
  }

  lemma WarmObjectionIs(cfg: Cluster, db: Database, owner: string, plan: WarmPlan)
    requires |InQueue(db, owner)| < cfg.queuedPerUser
    requires plan.target in cfg.storages && Added(db, owner, plan) >= 1
    ensures var reason := ReasonFor(cfg, db, owner, plan.target, Added(db, owner, plan));
      WarmObjection(cfg, db, owner, plan) == if reason.Some? then Some(Refused(reason.value)) else None
  {
    assert InQueue(db, owner) == Queued(db.transfers, owner);
    ReasonIsRefusal(cfg, db, owner, plan.target, Added(db, owner, plan));
  }

  /** So is a warm that adds bytes, where its user's queue is not full. */
  lemma WarmRefusedFor(cfg: Cluster, db: Database, owner: string, plan: WarmPlan, now: int, prepared: Option<string>,
                       reason: Refusal)
    requires |InQueue(db, owner)| < cfg.queuedPerUser
    requires plan.target in cfg.storages && Added(db, owner, plan) >= 1
    ensures SubmitWarm(cfg, db, owner, plan, now, prepared).1 == Raised(Refused(reason))
       <==> ReasonFor(cfg, db, owner, plan.target, Added(db, owner, plan)) == Some(reason)
  {
    WarmObjectionIs(cfg, db, owner, plan);
  }

  /** And so is a resize that adds bytes. */
  lemma ResizeRefusedFor(cfg: Cluster, db: Database, id: nat, size: int, force: bool, quotaSet: bool, reason: Refusal)
    requires id in db.filesets && db.filesets[id].state != FS.Released && db.filesets[id].storage in cfg.storages
    requires size >= 1 && size > db.filesets[id].allocatedBytes && (force || db.filesets[id].usedBytes <= size)
    ensures var f := db.filesets[id];
      Resize(cfg, db, id, size, force, quotaSet).1 == Raised(Refused(reason))
      <==> ReasonFor(cfg, db, f.owner, f.storage, size - f.allocatedBytes) == Some(reason)
  {
    var f := db.filesets[id];
    ReasonIsRefusal(cfg, db, f.owner, f.storage, size - f.allocatedBytes);
    ResizeAsks(cfg, db, id, size, force, quotaSet, reason);
  }

  lemma ResizeAsks(cfg: Cluster, db: Database, id: nat, size: int, force: bool, quotaSet: bool, reason: Refusal)
    requires id in db.filesets && db.filesets[id].state != FS.Released && db.filesets[id].storage in cfg.storages
    requires size >= 1 && size > db.filesets[id].allocatedBytes && (force || db.filesets[id].usedBytes <= size)
    ensures var f := db.filesets[id];
      Resize(cfg, db, id, size, force, quotaSet).1 == Raised(Refused(reason))
      <==> Admit(size - f.allocatedBytes, AdmissionState(cfg, db, f.owner, f.storage)) == Some(reason)
  {
  }

  // ---- Drains ----

  /** The last word said about draining a storage is that it is. */
  ghost predicate DrainAsked(cfg: Cluster, run: seq<Action>, storage: string) {
    && run != []
    && var last := run[|run| - 1];
       if last.DoDrain? && last.storage == storage && storage in cfg.storages then last.drained
       else DrainAsked(cfg, run[..|run| - 1], storage)
  }

  lemma StepDrains(cfg: Cluster, db: Database, a: Action, storage: string)
    ensures storage in Step(cfg, db, a).0.drained
      <==> if a.DoDrain? && a.storage == storage && storage in cfg.storages then a.drained else storage in db.drained
  {
  }

  /** A storage is drained if and only if an administrator last said so, whatever else has happened. */
  lemma {:induction false} DrainedIff(cfg: Cluster, run: seq<Action>, storage: string)
    ensures storage in After(cfg, EMPTY, run).drained <==> DrainAsked(cfg, run, storage)
  {
    if run != [] {
      DrainedIff(cfg, run[..|run| - 1], storage);
      StepDrains(cfg, After(cfg, EMPTY, run[..|run| - 1]), run[|run| - 1], storage);
    }
  }

  predicate Ends(t: Transfer, storage: string) {
    t.route.source == storage || t.route.target == storage
  }

  /** No fileset on the storage is new, or reserves more than it did. */
  ghost predicate NothingNew(db: Database, db': Database, storage: string) {
    forall i :: i in db'.filesets && db'.filesets[i].storage == storage ==>
      i in db.filesets && db'.filesets[i].allocatedBytes <= db.filesets[i].allocatedBytes
  }

  /** No warm or flush that reads from the storage or writes to it has been started. */
  ghost predicate NothingStarted(db: Database, db': Database, storage: string) {
    forall i :: i in db'.transfers && db'.transfers[i].kind.MovesData() && Ends(db'.transfers[i], storage)
                && InFlight(db'.transfers[i].state) ==>
      i in db.transfers && InFlight(db.transfers[i].state)
  }

  lemma CreateBringsNothing(cfg: Cluster, db: Database, a: Action, storage: string)
    requires a.DoCreate? && Linked(db) && storage in db.drained
    ensures NothingNew(db, Step(cfg, db, a).0, storage)
  {
    CreateReserves(cfg, db, a);
    CreateAdmittedIff(cfg, db, a.owner, a.storage, a.name, a.size, a.now, a.created);
  }

  lemma WarmBringsNothing(cfg: Cluster, db: Database, a: Action, storage: string)
    requires a.DoWarm? && cfg.Valid() && Possible(cfg, a) && Linked(db) && storage in db.drained
    ensures NothingNew(db, Step(cfg, db, a).0, storage)
  {
    PlanCoversSource(cfg, a.plan);
    if WarmAdmitted(cfg, db, a) {
      WarmReserves(cfg, db, a);
      WarmQueues(cfg, db, a);
      WarmAdmittedIff(cfg, db, a.owner, a.plan, a.now, a.prepared);
    } else {
      WarmRefused(cfg, db, a);
    }
  }

  lemma ResizeBringsNothing(cfg: Cluster, db: Database, a: Action, storage: string)
    requires a.DoResize? && storage in db.drained
    ensures NothingNew(db, Step(cfg, db, a).0, storage)
  {
    ResizeAdmittedIff(cfg, db, a.id, a.size, a.force, a.quotaSet);
  }

  lemma StepBringsNothing(cfg: Cluster, db: Database, a: Action, storage: string)
    requires cfg.Valid() && Possible(cfg, a) && Sound(cfg, db) && storage in db.drained
    ensures NothingNew(db, Step(cfg, db, a).0, storage)
  {
    if a.DoCreate? {
      CreateBringsNothing(cfg, db, a, storage);
    } else if a.DoWarm? {
      WarmBringsNothing(cfg, db, a, storage);
    } else if a.DoResize? {
      ResizeBringsNothing(cfg, db, a, storage);
    } else {
      StepPreserves(cfg, db, a);
    }
  }

  lemma PassStartsNothing(cfg: Cluster, db: Database, now: int, answers: map<nat, SchedulerLoop.Handover>,
                          storage: string)
    requires cfg.Valid() && Linked(db) && storage in db.drained
    ensures NothingStarted(db, SchedulerLoop.ScheduleOnce(cfg, db, now, answers), storage)
  {
    PassPlans(cfg, db, now);
    forall i | i in db.transfers
      ensures i in SchedulerLoop.ScheduleOnce(cfg, db, now, answers).transfers
      ensures Ends(db.transfers[i], storage) ==>
                SchedulerLoop.ScheduleOnce(cfg, db, now, answers).transfers[i] == db.transfers[i]
      ensures SameJob(db.transfers[i], SchedulerLoop.ScheduleOnce(cfg, db, now, answers).transfers[i])
    {
      PassHandsOver(cfg, db, now, answers, i);
    }
    PassAddsNothing(cfg, db, now, answers);
  }

  lemma PassAddsNothing(cfg: Cluster, db: Database, now: int, answers: map<nat, SchedulerLoop.Handover>)
    ensures SchedulerLoop.ScheduleOnce(cfg, db, now, answers).transfers.Keys == db.transfers.Keys
  {
    StartMovesTable(cfg, db.transfers, SchedulerLoop.Planned(cfg, db, now).plan, answers);
  }

  lemma StepStartsNothing(cfg: Cluster, db: Database, a: Action, storage: string)
    requires cfg.Valid() && Sound(cfg, db) && storage in db.drained
    ensures NothingStarted(db, Step(cfg, db, a).0, storage)
  {
    if a.DoSchedule? {
      PassStartsNothing(cfg, db, a.now, a.answers, storage);
    } else {
      StepMovesTable(cfg, db, a);
      QuietStartsNothing(cfg, db, Step(cfg, db, a).0, storage);
    }
  }

  lemma QuietStartsNothing(cfg: Cluster, db: Database, db': Database, storage: string)
    requires TableMoves(cfg, db, db', false)
    ensures NothingStarted(db, db', storage)
  {
    forall i | i in db'.transfers && db'.transfers[i].kind.MovesData() && InFlight(db'.transfers[i].state)
      ensures i in db.transfers && InFlight(db.transfers[i].state)
    {
      if i in db.transfers { assert RowMoves(cfg, db.transfers[i], db'.transfers[i], false); }
    }
  }

  lemma StillNothingNew(cfg: Cluster, db: Database, mid: Database, a: Action, storage: string)
    requires Linked(mid) && NothingNew(db, mid, storage) && NothingNew(mid, Step(cfg, mid, a).0, storage)
    ensures NothingNew(db, Step(cfg, mid, a).0, storage)
  {
    var after := Step(cfg, mid, a).0;
    forall i | i in after.filesets && after.filesets[i].storage == storage
      ensures i in db.filesets && after.filesets[i].allocatedBytes <= db.filesets[i].allocatedBytes
    {
      StepKeepsNames(cfg, mid, a, i);
    }
  }

  lemma StillNothingStarted(cfg: Cluster, db: Database, mid: Database, db': Database, scheduling: bool, storage: string)
    requires NothingStarted(db, mid, storage) && NothingStarted(mid, db', storage)
    requires TableMoves(cfg, mid, db', scheduling)
    ensures NothingStarted(db, db', storage)
  {
    forall i | i in db'.transfers && db'.transfers[i].kind.MovesData() && Ends(db'.transfers[i], storage)
               && InFlight(db'.transfers[i].state)
      ensures i in db.transfers && InFlight(db.transfers[i].state)
    {
      assert RowMoves(cfg, mid.transfers[i], db'.transfers[i], scheduling);
    }
  }

  ghost predicate Undrains(a: Action, storage: string) {
    a.DoDrain? && a.storage == storage && !a.drained
  }

  /** From when a storage is drained until it is undrained nothing comes onto it, whatever is asked, planned or
      reported: what runs on it runs out. */
  lemma {:induction false} DrainedTakesNothingIn(cfg: Cluster, db: Database, run: seq<Action>, storage: string)
    requires cfg.Valid() && AllPossible(cfg, run) && Sound(cfg, db) && storage in db.drained
    requires forall k :: 0 <= k < |run| ==> !Undrains(run[k], storage)
    ensures storage in After(cfg, db, run).drained
    ensures NothingNew(db, After(cfg, db, run), storage) && NothingStarted(db, After(cfg, db, run), storage)
  {
    if run != [] {
      var n := |run| - 1;
      var mid := After(cfg, db, run[..n]);
      DrainedTakesNothingIn(cfg, db, run[..n], storage);
      RunsAreSound(cfg, db, run[..n]);
      StepDrains(cfg, mid, run[n], storage);
      StepBringsNothing(cfg, mid, run[n], storage);
      StillNothingNew(cfg, db, mid, run[n], storage);
      StepStartsNothing(cfg, mid, run[n], storage);
      StepMovesTable(cfg, mid, run[n]);
      StillNothingStarted(cfg, db, mid, Step(cfg, mid, run[n]).0, run[n].DoSchedule?, storage);
    }
  }

  // ---- Overdrawn filesets ----

  /** The last measurement of a fileset that was recorded found more than it then reserved. */
  ghost predicate FoundOver(cfg: Cluster, run: seq<Action>, i: nat) {
    && run != []
    && var db, last := After(cfg, EMPTY, run[..|run| - 1]), run[|run| - 1];
       if last.DoMeasure? && last.id == i && Step(cfg, db, last).1 == Done && i in db.filesets
       then last.used > db.filesets[i].allocatedBytes
       else FoundOver(cfg, run[..|run| - 1], i)
  }

  ghost predicate KeepsMarks(db: Database, db': Database) {
    forall i :: i in db'.filesets ==>
      db'.filesets[i].overAllocation == (i in db.filesets && db.filesets[i].overAllocation)
  }

  lemma DeleteKeepsMarks(db: Database, id: nat, now: int, answer: DeleteAnswer)
    requires id in db.filesets
    ensures KeepsMarks(db, PerformRelease(db, id, now, answer).0)
  {
  }

  lemma AcceptedKeepsMarks(cfg: Cluster, db: Database, e: Event, now: int)
    requires Objection(cfg, db, e).None?
    ensures KeepsMarks(db, Accepted(cfg, db, e, now))
  {
  }

  lemma EventKeepsMarks(cfg: Cluster, db: Database, e: Event, now: int, store: Option<DeleteAnswer>)
    ensures KeepsMarks(db, ApplyEvent(cfg, db, e, now, store).0)
  {
    if Objection(cfg, db, e).None? {
      AcceptedKeepsMarks(cfg, db, e, now);
      if store.Some? {
        DeleteKeepsMarks(Accepted(cfg, db, e, now), db.transfers[e.transferId].filesetId, now, store.value);
      }
    }
  }

  lemma ReconcileKeepsMarks(cfg: Cluster, db: Database, id: nat, task: Reconciling.TaskAnswer, now: int)
    ensures KeepsMarks(db, Reconciling.ReconcileOne(cfg, db, id, task, now).0)
  {
    if id in db.transfers && db.transfers[id].taskId.Some? {
      var e := Reconciling.TaskEvent(cfg, id, db.transfers[id], task, now);
      if e.Some? { EventKeepsMarks(cfg, db, e.value, now, None); }
    }
  }

  lemma ReleaseKeepsMarks(db: Database, a: Action)
    requires a.DoRelease?
    ensures KeepsMarks(db, ReleaseFileset(db, a.owner, a.storage, a.name, a.discard, a.now, a.deleted).0)
  {
  }

  lemma WarmKeepsMarks(cfg: Cluster, db: Database, a: Action)
    requires a.DoWarm? && Linked(db)
    ensures KeepsMarks(db, Step(cfg, db, a).0)
  {
    if WarmAdmitted(cfg, db, a) { WarmPrepares(cfg, db, a); } else { WarmRefused(cfg, db, a); }
  }

  lemma CreateKeepsMarks(cfg: Cluster, db: Database, owner: string, storage: string, name: string, size: int, now: int,
                         answer: CreateAnswer)
    requires Linked(db)
    ensures KeepsMarks(db, CreateOutput(cfg, db, owner, storage, name, size, now, answer).0)
  {
  }

  lemma FlushKeepsMarks(cfg: Cluster, db: Database, owner: string, flush: FlushPlan, now: int, charged: bool)
    ensures KeepsMarks(db, SubmitFlush(cfg, db, owner, flush, now, charged).0)
  {
  }

  lemma ResizeKeepsMarks(cfg: Cluster, db: Database, id: nat, size: int, force: bool, quotaSet: bool)
    ensures KeepsMarks(db, Resize(cfg, db, id, size, force, quotaSet).0)
  {
  }

  lemma QuietKeepsMarks(cfg: Cluster, db: Database, a: Action)
    requires a.DoCancel? || a.DoSchedule? || a.DoDrain? || a.DoPrune?
    ensures KeepsMarks(db, Step(cfg, db, a).0)
  {
  }

  lemma StepKeepsMarks(cfg: Cluster, db: Database, a: Action)
    requires Linked(db) && !a.DoMeasure?
    ensures KeepsMarks(db, Step(cfg, db, a).0)
  {
    match a
    case DoCreate(owner, storage, name, size, now, created) =>
      CreateKeepsMarks(cfg, db, owner, storage, name, size, now, created);
    case DoFlush(owner, flush, now, charged) => FlushKeepsMarks(cfg, db, owner, flush, now, charged);
    case DoResize(id, size, force, quotaSet) => ResizeKeepsMarks(cfg, db, id, size, force, quotaSet);
    case DoEvent(event, now, store) => EventKeepsMarks(cfg, db, event, now, store);
    case DoReconcile(id, task, now) => ReconcileKeepsMarks(cfg, db, id, task, now);
    case DoRelease(_, _, _, _, _, _) => ReleaseKeepsMarks(db, a);
    case DoWarm(_, _, _, _) => WarmKeepsMarks(cfg, db, a);
    case _ => QuietKeepsMarks(cfg, db, a);
  }

  /** A measurement is recorded if and only if the fileset is past its creation and not released, and marks it if and
      only if it uses more than it reserves. */
  lemma MeasuredIff(cfg: Cluster, db: Database, id: nat, used: nat, fileCount: int, now: int)
    ensures var r := Step(cfg, db, DoMeasure(id, used, fileCount, now));
      && (r.1 == Done <==> id in db.filesets && db.filesets[id].state !in {FS.Released, FS.Creating})
      && (r.1 != Done ==> r.0 == db)
      && (r.1 == Done ==>
           && id in r.0.filesets && r.0 == db.(filesets := db.filesets[id := r.0.filesets[id]])
           && var f, g := db.filesets[id], r.0.filesets[id];
              && g.usedBytes == used && g.usedAt == Some(now) && g.fileCount == Some(fileCount)
              && (g.overAllocation <==> used > f.allocatedBytes)
              && g.state == f.state && g.allocatedBytes == f.allocatedBytes)
  {
  }

  /** A fileset is marked as overdrawn if and only if the last measurement of it found it so; a resize, a warm or a
      retry since then does not tell. */
  lemma {:induction false} MarkedIff(cfg: Cluster, run: seq<Action>, i: nat)
    ensures FoundOver(cfg, run, i) ==> i < After(cfg, EMPTY, run).nextFileset
    ensures var filesets := After(cfg, EMPTY, run).filesets;
      i in filesets ==> (filesets[i].overAllocation <==> FoundOver(cfg, run, i))
  {
    if run != [] {
      var n := |run| - 1;
      var db := After(cfg, EMPTY, run[..n]);
      MarkedIff(cfg, run[..n], i);
      EmptyIsSound(cfg);
      RunsAreSound(cfg, EMPTY, run[..n]);
      FilesetIdsRise(cfg, db, run[n]);
      if run[n].DoMeasure? {
        MeasuredIff(cfg, db, run[n].id, run[n].used, run[n].fileCount, run[n].now);
      } else {
        StepKeepsMarks(cfg, db, run[n]);
      }
    }
  }

  lemma FilesetIdsRise(cfg: Cluster, db: Database, a: Action)
    requires Linked(db)
    ensures Step(cfg, db, a).0.nextFileset >= db.nextFileset
    ensures forall i :: i in Step(cfg, db, a).0.filesets && i !in db.filesets ==> i >= db.nextFileset
  {
    if a.DoCreate? {
      CreateReserves(cfg, db, a);
    } else if a.DoWarm? {
      if WarmAdmitted(cfg, db, a) { WarmReserves(cfg, db, a); } else { WarmRefused(cfg, db, a); }
    } else if a.DoResize? {
      ResizeReserves(cfg, db, a);
    } else {
      StepPreserves(cfg, db, a);
    }
  }
}
