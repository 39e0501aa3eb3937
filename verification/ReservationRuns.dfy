/** What is reserved over whole runs: within every ceiling, and conserved. */
module ReservationRuns {
  import opened Numbers
  import opened Options
  import opened Transfers
  import opened Allocation
  import opened Tables
  import opened Releases
  import opened Events
  import opened Submissions
  import opened Runs
  import opened FilesetRuns

  // ---- Ceilings ----

  /** Each user within their limit on every storage, across caches and in number of filesets, and every
      storage within its capacity times its fill limit. */
  ghost predicate WithinCeilings(cfg: Cluster, db: Database) {
    forall slice :: Held(cfg, db.filesets, slice) <= CeilingOf(cfg, slice)
  }

  lemma PreservedHeld(cfg: Cluster, db: Database, db': Database, confirmed: bool, slice: Slice)
    requires Preserves(db, db', confirmed) && AllPositive(db)
    ensures Held(cfg, db'.filesets, slice) <= Held(cfg, db.filesets, slice)
  {
    HeldAtMost(cfg, db.filesets, db'.filesets, slice);
  }

  /** ck_filesets_allocation_positive */
  ghost predicate AllPositive(db: Database) {
    forall i :: i in db.filesets ==> db.filesets[i].allocatedBytes >= 1
  }

  /** Admission of `extra` bytes leaves room for them under every ceiling they count against. */
  lemma AdmittedFits(cfg: Cluster, db: Database, owner: string, storage: string, extra: int, slice: Slice)
    requires storage in cfg.storages && Admit(extra, AdmissionState(cfg, db, owner, storage)).None?
    ensures extra >= 1
    ensures slice in {OfUserOn(owner, storage), OfUserOnCaches(owner), AllOn(storage)}
      ==> Held(cfg, db.filesets, slice) + extra <= CeilingOf(cfg, slice)
    ensures slice == CountOf(owner) ==> Held(cfg, db.filesets, slice) + 1 <= CeilingOf(cfg, slice)
  {
  }

  ghost function HadAt(db: Database, i: nat): int {
    if i in db.filesets then db.filesets[i].allocatedBytes else 0
  }

  /** The one row written is a live fileset whose growth, if any, was admitted. */
  ghost predicate AdmittedRow(cfg: Cluster, db: Database, db': Database, i: nat) {
    && Reserves(db, db', i)
    && db'.filesets[i].allocatedBytes >= 1
    && var f := db'.filesets[i];
       f.allocatedBytes > HadAt(db, i) ==>
         f.storage in cfg.storages
           && Admit(f.allocatedBytes - HadAt(db, i), AdmissionState(cfg, db, f.owner, f.storage)).None?
  }

  lemma AdmittedRowFits(cfg: Cluster, db: Database, db': Database, i: nat, slice: Slice)
    requires WithinCeilings(cfg, db) && AdmittedRow(cfg, db, db', i)
    ensures Held(cfg, db'.filesets, slice) <= CeilingOf(cfg, slice)
  {
    var f := db'.filesets[i];
    HeldAfterSet(cfg, db.filesets, i, f, slice);
    assert Held(cfg, db.filesets, slice) <= CeilingOf(cfg, slice);
    if f.allocatedBytes > HadAt(db, i) {
      AdmittedFits(cfg, db, f.owner, f.storage, f.allocatedBytes - HadAt(db, i), slice);
    }
  }

  lemma AdmittedRowKeeps(cfg: Cluster, db: Database, db': Database, i: nat)
    requires AllPositive(db) && WithinCeilings(cfg, db) && AdmittedRow(cfg, db, db', i)
    ensures AllPositive(db') && WithinCeilings(cfg, db')
  {
    forall slice ensures Held(cfg, db'.filesets, slice) <= CeilingOf(cfg, slice) {
      AdmittedRowFits(cfg, db, db', i, slice);
    }
  }

  /** The reservation of the fileset a warm fills, before and after. */
  ghost predicate WarmGrown(db: Database, db': Database, a: Action)
    requires a.DoWarm?
  {
    var i := WarmId(db, a);
    && Reserves(db, db', i) && db'.filesets[i].owner == a.owner && db'.filesets[i].storage == a.plan.target
    && HadAt(db, i) == WarmHad(db, a)
    && db'.filesets[i].allocatedBytes >= a.plan.reservation
    && (db'.filesets[i].allocatedBytes > HadAt(db, i) ==> db'.filesets[i].allocatedBytes == a.plan.reservation)
  }

  lemma WarmGrows(cfg: Cluster, db: Database, a: Action)
    requires a.DoWarm? && Linked(db) && WarmAdmitted(cfg, db, a)
    ensures WarmGrown(db, Step(cfg, db, a).0, a)
  {
    WarmReserves(cfg, db, a);
  }

  lemma WarmAdmitsRow(cfg: Cluster, db: Database, a: Action, db': Database)
    requires a.DoWarm? && cfg.Valid() && Possible(cfg, a) && WarmAdmitted(cfg, db, a) && WarmGrown(db, db', a)
    ensures AdmittedRow(cfg, db, db', WarmId(db, a))
  {
    PlanCoversSource(cfg, a.plan);
    if db'.filesets[WarmId(db, a)].allocatedBytes > HadAt(db, WarmId(db, a)) { GrowthAdmitted(cfg, db, a); }
  }

  lemma CreateKeepsCeilings(cfg: Cluster, db: Database, a: Action)
    requires a.DoCreate? && Linked(db) && AllPositive(db) && WithinCeilings(cfg, db)
    ensures AllPositive(Step(cfg, db, a).0) && WithinCeilings(cfg, Step(cfg, db, a).0)
  {
    CreateReserves(cfg, db, a);
    if CreatedId(cfg, db, a).Some? { AdmittedRowKeeps(cfg, db, Step(cfg, db, a).0, db.nextFileset); }
  }

  lemma WarmKeepsCeilings(cfg: Cluster, db: Database, a: Action)
    requires a.DoWarm? && cfg.Valid() && Possible(cfg, a) && Linked(db) && AllPositive(db) && WithinCeilings(cfg, db)
    ensures AllPositive(Step(cfg, db, a).0) && WithinCeilings(cfg, Step(cfg, db, a).0)
  {
    if WarmAdmitted(cfg, db, a) {
      WarmGrows(cfg, db, a);
      WarmAdmitsRow(cfg, db, a, Step(cfg, db, a).0);
      AdmittedRowKeeps(cfg, db, Step(cfg, db, a).0, WarmId(db, a));
    } else {
      WarmRefused(cfg, db, a);
    }
  }

  lemma ResizeKeepsCeilings(cfg: Cluster, db: Database, a: Action)
    requires a.DoResize? && AllPositive(db) && WithinCeilings(cfg, db)
    ensures AllPositive(Step(cfg, db, a).0) && WithinCeilings(cfg, Step(cfg, db, a).0)
  {
    ResizeReserves(cfg, db, a);
    if Step(cfg, db, a).1 == Done { AdmittedRowKeeps(cfg, db, Step(cfg, db, a).0, a.id); }
  }

  lemma StepKeepsCeilings(cfg: Cluster, db: Database, a: Action)
    requires cfg.Valid() && Possible(cfg, a) && Linked(db) && AllPositive(db) && WithinCeilings(cfg, db)
    ensures AllPositive(Step(cfg, db, a).0) && WithinCeilings(cfg, Step(cfg, db, a).0)
  {
    if a.DoCreate? {
      CreateKeepsCeilings(cfg, db, a);
    } else if a.DoWarm? {
      WarmKeepsCeilings(cfg, db, a);
    } else if a.DoResize? {
      ResizeKeepsCeilings(cfg, db, a);
    } else {
      var db' := Step(cfg, db, a).0;
      StepPreserves(cfg, db, a);
      forall slice ensures Held(cfg, db'.filesets, slice) <= CeilingOf(cfg, slice) {
        assert Held(cfg, db.filesets, slice) <= CeilingOf(cfg, slice);
        PreservedHeld(cfg, db, db', ConfirmsDelete(a), slice);
      }
    }
  }

  lemma EmptyWithinCeilings(cfg: Cluster)
    requires cfg.Valid()
    ensures WithinCeilings(cfg, EMPTY)
  {
    forall slice ensures Held(cfg, EMPTY.filesets, slice) <= CeilingOf(cfg, slice) {
      assert Weights(cfg, EMPTY.filesets, slice) == map[];
      if slice.AllOn? && slice.storage in cfg.storages {
        var s := cfg.storages[slice.storage];
        assert s.capacity as real * s.fillLimit >= 0.0;
      }
    }
  }

  /** In any serial run no user limit, no fileset count and no storage's allocatable capacity is exceeded. */
  lemma {:induction false} CeilingsNeverExceeded(cfg: Cluster, run: seq<Action>)
    requires cfg.Valid() && AllPossible(cfg, run)
    ensures AllPositive(After(cfg, EMPTY, run)) && WithinCeilings(cfg, After(cfg, EMPTY, run))
  {
    EmptyIsSound(cfg);
    if run == [] {
      EmptyWithinCeilings(cfg);
    } else {
      var n := |run| - 1;
      CeilingsNeverExceeded(cfg, run[..n]);
      RunsAreSound(cfg, EMPTY, run[..n]);
      StepKeepsCeilings(cfg, After(cfg, EMPTY, run[..n]), run[n]);
    }
  }

  /** The same in the config's terms: what an admin has set for a user binds in place of the defaults, and a storage is
      never filled beyond its fill limit. */
  lemma ConfigIsRespected(cfg: Cluster, run: seq<Action>, user: string, storage: string)
    requires cfg.Valid() && AllPossible(cfg, run)
    ensures var filesets := After(cfg, EMPTY, run).filesets;
      && Held(cfg, filesets, OfUserOn(user, storage))
         <= (if (user, Some(storage)) in cfg.userLimits then cfg.userLimits[(user, Some(storage))]
             else if storage in cfg.storages then cfg.storages[storage].defaultLimit else 0)
      && Held(cfg, filesets, OfUserOnCaches(user))
           <= (if (user, None) in cfg.userLimits then cfg.userLimits[(user, None)] else cfg.totalLimit)
      && Held(cfg, filesets, CountOf(user)) <= cfg.maxFilesets
      && (storage in cfg.storages ==>
           Held(cfg, filesets, AllOn(storage)) as real
             <= cfg.storages[storage].capacity as real * cfg.storages[storage].fillLimit)
  {
    CeilingsNeverExceeded(cfg, run);
    var filesets := After(cfg, EMPTY, run).filesets;
    assert Held(cfg, filesets, OfUserOn(user, storage)) <= CeilingOf(cfg, OfUserOn(user, storage));
    assert Held(cfg, filesets, OfUserOnCaches(user)) <= CeilingOf(cfg, OfUserOnCaches(user));
    assert Held(cfg, filesets, CountOf(user)) <= CeilingOf(cfg, CountOf(user));
    assert Held(cfg, filesets, AllOn(storage)) <= CeilingOf(cfg, AllOn(storage));
  }

  /** A live fileset can be shrunk, once its daemon sets the quota, to any size of at least a byte that is not below
      what it uses, and below that by force; shrinking is never a matter of limits. */
  lemma ShrinksIff(cfg: Cluster, db: Database, id: nat, size: int, force: bool)
    requires id in db.filesets && Live(db.filesets[id]) && size <= db.filesets[id].allocatedBytes
    ensures Step(cfg, db, DoResize(id, size, force, true)).1 == Done
      <==> size >= 1 && (force || db.filesets[id].usedBytes <= size)
  {
  }

  // ---- Conservation ----

  /** What one step does to the bytes reserved for an owner on a storage. */
  datatype Entry = Entry(owner: string, storage: string, admitted: int, deleted: int, rolledBack: int, shrunk: int)

  const NOTHING := Entry("", "", 0, 0, 0, 0)

  function Net(e: Entry): int { e.admitted - e.deleted - e.rolledBack - e.shrunk }

  /** The ledger entry of a step, read off the call, its answer and how it ended. */
  ghost function Booked(cfg: Cluster, db: Database, a: Action): Entry {
    var v := Step(cfg, db, a).1;
    match a
    case DoCreate(owner, storage, _, size, _, _) =>
      if v in {Done, Raised(Interrupted)} then Entry(owner, storage, size, 0, 0, 0)
      else if v == Raised(DaemonRefused) then Entry(owner, storage, size, 0, size, 0)
      else NOTHING
    case DoWarm(owner, plan, _, _) =>
      if WarmAdmitted(cfg, db, a) then Entry(owner, plan.target, Max(plan.reservation - WarmHad(db, a), 0), 0, 0, 0)
      else NOTHING
    case DoResize(id, size, _, _) =>
      if v == Done && id in db.filesets then
        var f := db.filesets[id];
        Entry(f.owner, f.storage, Max(size - f.allocatedBytes, 0), 0, 0, Max(f.allocatedBytes - size, 0))
      else NOTHING
    case DoRelease(owner, storage, name, _, _, _) =>
      if v == Done && LiveFileset(db.filesets, owner, storage, name).Some? then
        Entry(owner, storage, 0, db.filesets[LiveFileset(db.filesets, owner, storage, name).value].allocatedBytes, 0, 0)
      else NOTHING
    case DoEvent(e, now, store) =>
      if v == Done && FlushReleases(db, e, store) then
        var f := db.filesets[db.transfers[e.transferId].filesetId];
        Entry(f.owner, f.storage, 0, f.allocatedBytes, 0, 0)
      else NOTHING
    case _ => NOTHING
  }

  /** The event finishes a flush that releases its fileset, and the daemon confirms the delete. */
  ghost predicate FlushReleases(db: Database, e: Event, store: Option<DeleteAnswer>) {
    && store == Some(Deleted)
    && e.transferId in db.transfers
    && db.transfers[e.transferId].kind == Flush && e.kind == Finished && db.transfers[e.transferId].releaseAfter
    && db.transfers[e.transferId].filesetId in db.filesets
  }

  predicate CountsIn(cfg: Cluster, owner: string, storage: string, slice: Slice) {
    match slice
    case OfUserOn(u, s) => owner == u && storage == s
    case OfUserOnCaches(u) => owner == u && IsCache(cfg, storage)
    case AllOn(s) => storage == s
    case CountOf(_) => false
  }

  function Share(cfg: Cluster, e: Entry, slice: Slice): int {
    if CountsIn(cfg, e.owner, e.storage, slice) then Net(e) else 0
  }

  ghost predicate Balances(cfg: Cluster, db: Database, a: Action, slice: Slice) {
    Held(cfg, Step(cfg, db, a).0.filesets, slice)
      == Held(cfg, db.filesets, slice) + Share(cfg, Booked(cfg, db, a), slice)
  }

  /** Writing a row books exactly the change of what it reserves. */
  lemma OneRowBalances(cfg: Cluster, db: Database, db': Database, i: nat, slice: Slice, net: int)
    requires WritesOnly(db, db', i) && !slice.CountOf?
    requires i in db.filesets ==> SameName(db.filesets[i], db'.filesets[i])
    requires var g := db'.filesets[i];
      net == (if Live(g) then g.allocatedBytes else 0)
             - (if i in db.filesets && Live(db.filesets[i]) then db.filesets[i].allocatedBytes else 0)
    ensures Held(cfg, db'.filesets, slice) == Held(cfg, db.filesets, slice)
         + (if CountsIn(cfg, db'.filesets[i].owner, db'.filesets[i].storage, slice) then net else 0)
  {
    HeldAfterSet(cfg, db.filesets, i, db'.filesets[i], slice);
  }

  lemma UnfreedBalances(cfg: Cluster, db: Database, db': Database, slice: Slice)
    requires Preserves(db, db', false) && !slice.CountOf?
    requires forall i :: i in db.filesets && i in db'.filesets ==> (Live(db'.filesets[i]) <==> Live(db.filesets[i]))
    ensures Held(cfg, db'.filesets, slice) == Held(cfg, db.filesets, slice)
  {
    if db'.filesets != db.filesets {
      var i :| i in db.filesets && WritesOnly(db, db', i) && SameReservation(db.filesets[i], db'.filesets[i], false);
      OneRowBalances(cfg, db, db', i, slice, 0);
    }
  }

  /** What is left of the reservation of a fileset that a release was asked for. */
  lemma ReleaseHeld(cfg: Cluster, db: Database, id: nat, now: int, answer: DeleteAnswer, slice: Slice)
    requires id in db.filesets && Live(db.filesets[id]) && !slice.CountOf?
    ensures var after, f := PerformRelease(db, id, now, answer), db.filesets[id];
      Held(cfg, after.0.filesets, slice) == Held(cfg, db.filesets, slice)
        - (if after.1 == Done && CountsIn(cfg, f.owner, f.storage, slice) then f.allocatedBytes else 0)
  {
    var after := PerformRelease(db, id, now, answer);
    ReleasePreserves(db, id, now, answer);
    if WritesOnly(db, after.0, id) {
      OneRowBalances(cfg, db, after.0, id, slice, if after.1 == Done then -db.filesets[id].allocatedBytes else 0);
    }
  }

  lemma ReleaseFilesetHeld(cfg: Cluster, db: Database, owner: string, storage: string, name: string, discard: bool,
                           now: int, answer: DeleteAnswer, slice: Slice)
    requires !slice.CountOf?
    ensures var after, found := ReleaseFileset(db, owner, storage, name, discard, now, answer),
      LiveFileset(db.filesets, owner, storage, name);
      && (after.1 == Done ==> found.Some?)
      && Held(cfg, after.0.filesets, slice) == Held(cfg, db.filesets, slice)
         - (if after.1 == Done && CountsIn(cfg, owner, storage, slice) then db.filesets[found.value].allocatedBytes
            else 0)
  {
    var found := LiveFileset(db.filesets, owner, storage, name);
    if found.Some? { ReleaseHeld(cfg, db, found.value, now, answer, slice); }
  }

  lemma ReleaseBalances(cfg: Cluster, db: Database, a: Action, slice: Slice)
    requires a.DoRelease? && !slice.CountOf?
    ensures Balances(cfg, db, a, slice)
  {
    ReleaseFilesetHeld(cfg, db, a.owner, a.storage, a.name, a.discard, a.now, a.deleted, slice);
  }

  lemma AcceptedHeld(cfg: Cluster, db: Database, e: Event, now: int, slice: Slice)
    requires Objection(cfg, db, e).None? && !slice.CountOf?
    ensures Held(cfg, Accepted(cfg, db, e, now).filesets, slice) == Held(cfg, db.filesets, slice)
  {
    AcceptedPreserves(cfg, db, e, now);
    OneRowBalances(cfg, db, Accepted(cfg, db, e, now), db.transfers[e.transferId].filesetId, slice, 0);
  }

  lemma EventHeld(cfg: Cluster, db: Database, e: Event, now: int, store: Option<DeleteAnswer>, slice: Slice)
    requires Objection(cfg, db, e).None? && !slice.CountOf?
    ensures var f := db.filesets[db.transfers[e.transferId].filesetId];
      Held(cfg, ApplyEvent(cfg, db, e, now, store).0.filesets, slice) == Held(cfg, db.filesets, slice)
        - (if FlushReleases(db, e, store) && CountsIn(cfg, f.owner, f.storage, slice) then f.allocatedBytes else 0)
  {
    var i := db.transfers[e.transferId].filesetId;
    var accepted := Accepted(cfg, db, e, now);
    AcceptedHeld(cfg, db, e, now, slice);
    AcceptedPreserves(cfg, db, e, now);
    if e.kind == Finished && store.Some? {
      ReleaseHeld(cfg, accepted, i, now, store.value, slice);
      ReleasePreserves(accepted, i, now, store.value);
    }
  }

  lemma EventBalances(cfg: Cluster, db: Database, a: Action, slice: Slice)
    requires a.DoEvent? && !slice.CountOf?
    ensures Balances(cfg, db, a, slice)
  {
    if Objection(cfg, db, a.event).None? { EventHeld(cfg, db, a.event, a.now, a.store, slice); }
  }

  lemma CreateBalances(cfg: Cluster, db: Database, a: Action, slice: Slice)
    requires a.DoCreate? && Linked(db) && !slice.CountOf?
    ensures Balances(cfg, db, a, slice)
  {
    CreateReserves(cfg, db, a);
    if CreatedId(cfg, db, a).Some? { OneRowBalances(cfg, db, Step(cfg, db, a).0, db.nextFileset, slice, a.size); }
  }

  lemma WarmBalances(cfg: Cluster, db: Database, a: Action, slice: Slice)
    requires a.DoWarm? && Linked(db) && !slice.CountOf? && a.plan.reservation >= 0
    ensures Balances(cfg, db, a, slice)
  {
    if WarmAdmitted(cfg, db, a) {
      WarmReserves(cfg, db, a);
      OneRowBalances(cfg, db, Step(cfg, db, a).0, WarmId(db, a), slice, Net(Booked(cfg, db, a)));
    } else {
      WarmRefused(cfg, db, a);
    }
  }

  lemma ResizeBalances(cfg: Cluster, db: Database, a: Action, slice: Slice)
    requires a.DoResize? && Linked(db) && !slice.CountOf?
    ensures Balances(cfg, db, a, slice)
  {
    ResizeReserves(cfg, db, a);
    if Step(cfg, db, a).1 == Done {
      OneRowBalances(cfg, db, Step(cfg, db, a).0, a.id, slice, a.size - db.filesets[a.id].allocatedBytes);
    }
  }

  lemma StepBalances(cfg: Cluster, db: Database, a: Action, slice: Slice)
    requires cfg.Valid() && Possible(cfg, a) && Linked(db) && !slice.CountOf?
    ensures Balances(cfg, db, a, slice)
  {
    if a.DoRelease? {
      ReleaseBalances(cfg, db, a, slice);
    } else if a.DoEvent? {
      EventBalances(cfg, db, a, slice);
    } else if a.DoCreate? {
      CreateBalances(cfg, db, a, slice);
    } else if a.DoWarm? {
      PlanCoversSource(cfg, a.plan);
      WarmBalances(cfg, db, a, slice);
    } else if a.DoResize? {
      ResizeBalances(cfg, db, a, slice);
    } else {
      StepPreserves(cfg, db, a);
      FreesNothing(cfg, db, a);
      UnfreedBalances(cfg, db, Step(cfg, db, a).0, slice);
    }
  }

  /** Without a confirmed delete no fileset stops holding its reservation, and none ever comes back. */
  lemma FreesNothing(cfg: Cluster, db: Database, a: Action)
    requires Linked(db) && !ConfirmsDelete(a)
    ensures forall i :: i in db.filesets && i in Step(cfg, db, a).0.filesets ==>
              (Live(Step(cfg, db, a).0.filesets[i]) <==> Live(db.filesets[i]))
  {
    if a.DoCreate? {
      CreateReserves(cfg, db, a);
    } else if a.DoWarm? {
      if WarmAdmitted(cfg, db, a) { WarmReserves(cfg, db, a); } else { WarmRefused(cfg, db, a); }
    } else if a.DoResize? {
      ResizeReserves(cfg, db, a);
    } else {
      StepPreserves(cfg, db, a);
    }
  }

  ghost function BookedOver(cfg: Cluster, db: Database, run: seq<Action>, slice: Slice): int {
    if run == [] then 0
    else
      var n := |run| - 1;
      BookedOver(cfg, db, run[..n], slice) + Share(cfg, Booked(cfg, After(cfg, db, run[..n]), run[n]), slice)
  }

  /** Over any run, on every storage and for every user, live reservations are the bytes admitted less those of
      confirmed deletes, rolled-back creates and shrinks. */
  lemma {:induction false} ReservationsAreConserved(cfg: Cluster, run: seq<Action>, slice: Slice)
    requires cfg.Valid() && AllPossible(cfg, run) && !slice.CountOf?
    ensures Held(cfg, After(cfg, EMPTY, run).filesets, slice) == BookedOver(cfg, EMPTY, run, slice)
  {
    EmptyIsSound(cfg);
    if run == [] {
      assert Weights(cfg, EMPTY.filesets, slice) == map[];
    } else {
      var n := |run| - 1;
      ReservationsAreConserved(cfg, run[..n], slice);
      RunsAreSound(cfg, EMPTY, run[..n]);
      StepBalances(cfg, After(cfg, EMPTY, run[..n]), run[n], slice);
    }
  }

  /** RELEASED is final: a released fileset is still there, and still released, after any run. */
  lemma {:induction false} ReleasedIsFinal(cfg: Cluster, db: Database, run: seq<Action>, i: nat)
    requires Sound(cfg, db) && i in db.filesets && !Live(db.filesets[i])
    ensures i in After(cfg, db, run).filesets && !Live(After(cfg, db, run).filesets[i])
  {
    if run != [] {
      var n := |run| - 1;
      ReleasedIsFinal(cfg, db, run[..n], i);
      RunsAreSound(cfg, db, run[..n]);
      StaysReleased(cfg, After(cfg, db, run[..n]), run[n], i);
    }
  }

  lemma StaysReleased(cfg: Cluster, db: Database, a: Action, i: nat)
    requires Linked(db) && i in db.filesets && !Live(db.filesets[i])
    ensures i in Step(cfg, db, a).0.filesets && !Live(Step(cfg, db, a).0.filesets[i])
  {
    FilesetLinks(cfg, db, a);
    if ConfirmsDelete(a) { StepPreserves(cfg, db, a); } else { FreesNothing(cfg, db, a); }
  }
}
