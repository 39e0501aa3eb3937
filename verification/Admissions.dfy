/** Admissions that interleave (src/stashd/services/filesets.py:88-139, 183-225; src/stashd/services/warm.py:213-226).

    A request for a new fileset takes the lock of its user, looks for the name, reads its sums one query at a time,
    decides, and inserts its row as it commits and lets go of the lock. Between any two of these steps other users'
    requests move on, filesets are released and failed creates take their rows away.
  */
module Admissions {
  import opened Options
  import opened Allocation
  import opened Tables
  import FS = Filesets

  datatype Request = Request(user: string, storage: string, name: string, bytes: int)

  /** How far a request has come. */
  datatype Stage = HasLock | NameFree | UsageRead | StorageRead | CountRead | Admitted

  datatype Session = Session(request: Request, stage: Stage, onStorage: int, onCaches: int,
                             storageAllocated: int, count: int)

  /** The lock table maps a key to the session that holds it; `keyOf` is the digest a user's name is locked under. */
  datatype World = World(filesets: map<nat, Fileset>, nextFileset: nat, locks: map<int, nat>,
                         sessions: map<nat, Session>)

  const NOBODY := World(map[], 1, map[], map[])

  datatype Move =
    | Lock(sid: nat, request: Request)
    | FindName(sid: nat)
    | ReadUsage(sid: nat)
    | ReadStorage(sid: nat)
    | ReadCount(sid: nat)
    | Decide(sid: nat, overAllocated: bool, drained: bool)
    | Insert(sid: nat, now: int)
    | Abandon(sid: nat)
    | Free(id: nat, now: int)
    | TakeAway(id: nat)

  /** The transaction ends, and the lock with it. */
  function Ended(w: World, sid: nat, keyOf: string -> int): World
    requires sid in w.sessions
  {
    w.(sessions := w.sessions - {sid}, locks := w.locks - {keyOf(w.sessions[sid].request.user)})
  }

  function At(w: World, sid: nat, stage: Stage): bool {
    sid in w.sessions && w.sessions[sid].stage == stage
  }

  function StateOf(cfg: Cluster, s: Session, overAllocated: bool, drained: bool): AllocationState
    requires s.request.storage in cfg.storages
  {
    var storage := cfg.storages[s.request.storage];
    AllocationState(
      s.onStorage, StorageLimit(cfg, s.request.user, s.request.storage),
      s.onCaches, TotalLimit(cfg, s.request.user),
      s.storageAllocated, storage.capacity, storage.fillLimit,
      s.count, cfg.maxFilesets, overAllocated, drained)
  }

  /** A move that is not enabled changes nothing: a held lock makes its caller wait. */
  ghost function Do(cfg: Cluster, keyOf: string -> int, w: World, m: Move): World {
    match m
    case Lock(sid, r) =>
      if sid in w.sessions || keyOf(r.user) in w.locks || !IsCache(cfg, r.storage) then w
      else w.(locks := w.locks[keyOf(r.user) := sid], sessions := w.sessions[sid := Session(r, HasLock, 0, 0, 0, 0)])
    case FindName(sid) =>
      if !At(w, sid, HasLock) then w
      else
        var s := w.sessions[sid];
        if LiveIds(w.filesets, s.request.user, s.request.storage, s.request.name) != {} then Ended(w, sid, keyOf)
        else w.(sessions := w.sessions[sid := s.(stage := NameFree)])
    case ReadUsage(sid) =>
      if !At(w, sid, NameFree) then w
      else
        var s := w.sessions[sid];
        w.(sessions := w.sessions[sid := s.(stage := UsageRead,
             onStorage := Held(cfg, w.filesets, OfUserOn(s.request.user, s.request.storage)),
             onCaches := Held(cfg, w.filesets, OfUserOnCaches(s.request.user)))])
    case ReadStorage(sid) =>
      if !At(w, sid, UsageRead) then w
      else
        var s := w.sessions[sid];
        w.(sessions := w.sessions[sid :=
                                  s.(stage := StorageRead,
                                     storageAllocated := Held(cfg, w.filesets, AllOn(s.request.storage)))])
    case ReadCount(sid) =>
      if !At(w, sid, StorageRead) then w
      else
        var s := w.sessions[sid];
        w.(sessions := w.sessions[sid :=
                                  s.(stage := CountRead, count := Held(cfg, w.filesets, CountOf(s.request.user)))])
    case Decide(sid, overAllocated, drained) =>
      if !At(w, sid, CountRead) then w
      else
        var s := w.sessions[sid];
        if s.request.storage !in cfg.storages || Admit(s.request.bytes, StateOf(cfg, s, overAllocated, drained)).Some?
        then Ended(w, sid, keyOf)
        else w.(sessions := w.sessions[sid := s.(stage := Admitted)])
    case Insert(sid, now) =>
      if !At(w, sid, Admitted) then w
      else
        var r := w.sessions[sid].request;
        Ended(w, sid, keyOf).(
          filesets := w.filesets[w.nextFileset := NewFileset(r.name, r.user, r.storage, FS.Output, r.bytes, None, now)],
          nextFileset := w.nextFileset + 1)
    case Abandon(sid) => if sid in w.sessions then Ended(w, sid, keyOf) else w
    case Free(id, now) =>
      if id !in w.filesets then w
      else w.(filesets := w.filesets[id := w.filesets[id].(state := FS.Released, releasedAt := Some(now))])
    case TakeAway(id) => w.(filesets := w.filesets - {id})
  }

  ghost function After(cfg: Cluster, keyOf: string -> int, w: World, moves: seq<Move>): World {
    if moves == [] then w else Do(cfg, keyOf, After(cfg, keyOf, w, moves[..|moves| - 1]), moves[|moves| - 1])
  }

  // ---- The invariant ----

  /** The sums a request is checked against; the storage's own only where every user shares one lock. */
  ghost predicate Guards(r: Request, slice: Slice, shared: bool) {
    || slice in {OfUserOn(r.user, r.storage), OfUserOnCaches(r.user), CountOf(r.user)}
    || (shared && slice == AllOn(r.storage))
  }

  function Asked(r: Request, slice: Slice): int {
    if slice.CountOf? then 1 else r.bytes
  }

  predicate HasRead(stage: Stage, slice: Slice) {
    match slice
    case OfUserOn(_, _) => stage in {UsageRead, StorageRead, CountRead, Admitted}
    case OfUserOnCaches(_) => stage in {UsageRead, StorageRead, CountRead, Admitted}
    case AllOn(_) => stage in {StorageRead, CountRead, Admitted}
    case CountOf(_) => stage in {CountRead, Admitted}
  }

  function Seen(s: Session, slice: Slice): int {
    match slice
    case OfUserOn(_, _) => s.onStorage
    case OfUserOnCaches(_) => s.onCaches
    case AllOn(_) => s.storageAllocated
    case CountOf(_) => s.count
  }

  /** What a session has read can only have shrunk since, and what it was admitted for still fits. */
  ghost predicate SessionOk(cfg: Cluster, keyOf: string -> int, w: World, sid: nat, shared: bool)
    requires sid in w.sessions
  {
    var s := w.sessions[sid];
    && keyOf(s.request.user) in w.locks && w.locks[keyOf(s.request.user)] == sid
    && IsCache(cfg, s.request.storage)
    && (s.stage != HasLock ==> LiveIds(w.filesets, s.request.user, s.request.storage, s.request.name) == {})
    && (forall slice ::
          Guards(s.request, slice, shared) && HasRead(s.stage, slice)
          ==> Held(cfg, w.filesets, slice) <= Seen(s, slice))
    && (s.stage == Admitted ==> s.request.bytes >= 1)
    && (forall slice ::
          s.stage == Admitted && Guards(s.request, slice, shared)
          ==> Seen(s, slice) + Asked(s.request, slice) <= CeilingOf(cfg, slice))
  }

  ghost predicate SessionsOk(cfg: Cluster, keyOf: string -> int, w: World, shared: bool) {
    forall sid :: sid in w.sessions ==> SessionOk(cfg, keyOf, w, sid, shared)
  }

  ghost predicate TableOk(cfg: Cluster, w: World, shared: bool) {
    && UniqueNames(w.filesets)
    && (forall i :: i in w.filesets ==> i < w.nextFileset && w.filesets[i].allocatedBytes >= 0)
    && (forall slice: Slice :: !slice.AllOn? || shared ==> Held(cfg, w.filesets, slice) <= CeilingOf(cfg, slice))
  }

  ghost predicate SharedKey(keyOf: string -> int) {
    forall u, v :: keyOf(u) == keyOf(v)
  }

  // ---- Steps that only take away ----

  ghost predicate Shrinks(cfg: Cluster, before: map<nat, Fileset>, after: map<nat, Fileset>) {
    && (forall i ::
          i in after
          ==> i in before && (Live(after[i]) ==> after[i] == before[i])
              && after[i].allocatedBytes == before[i].allocatedBytes)
    && (forall slice :: Held(cfg, after, slice) <= Held(cfg, before, slice))
  }

  lemma FreeShrinks(cfg: Cluster, filesets: map<nat, Fileset>, id: nat, freed: Fileset)
    requires id in filesets && forall i :: i in filesets ==> filesets[i].allocatedBytes >= 0
    requires !Live(freed) && freed.allocatedBytes == filesets[id].allocatedBytes
    ensures Shrinks(cfg, filesets, filesets[id := freed])
  {
    forall slice ensures Held(cfg, filesets[id := freed], slice) <= Held(cfg, filesets, slice) {
      HeldAfterSet(cfg, filesets, id, freed, slice);
    }
  }

  lemma TakeAwayShrinks(cfg: Cluster, filesets: map<nat, Fileset>, id: nat)
    requires forall i :: i in filesets ==> filesets[i].allocatedBytes >= 0
    ensures Shrinks(cfg, filesets, filesets - {id})
  {
    forall slice ensures Held(cfg, filesets - {id}, slice) <= Held(cfg, filesets, slice) {
      if id in filesets {
        HeldAfterSet(cfg, filesets - {id}, id, filesets[id], slice);
        assert (filesets - {id})[id := filesets[id]] == filesets;
      } else {
        assert filesets - {id} == filesets;
      }
    }
  }

  lemma ShrinkingKeeps(cfg: Cluster, keyOf: string -> int, w: World, filesets: map<nat, Fileset>, shared: bool)
    requires SessionsOk(cfg, keyOf, w, shared) && TableOk(cfg, w, shared) && Shrinks(cfg, w.filesets, filesets)
    ensures SessionsOk(cfg, keyOf, w.(filesets := filesets), shared) && TableOk(cfg, w.(filesets := filesets), shared)
  {
    var w' := w.(filesets := filesets);
    forall sid | sid in w'.sessions ensures SessionOk(cfg, keyOf, w', sid, shared) {
      assert SessionOk(cfg, keyOf, w, sid, shared);
      var r := w.sessions[sid].request;
      assert LiveIds(filesets, r.user, r.storage, r.name) <= LiveIds(w.filesets, r.user, r.storage, r.name);
    }
  }

  // ---- Steps of one session ----

  lemma EndingKeeps(cfg: Cluster, keyOf: string -> int, w: World, sid: nat, shared: bool)
    requires SessionsOk(cfg, keyOf, w, shared) && sid in w.sessions
    ensures SessionsOk(cfg, keyOf, Ended(w, sid, keyOf), shared)
  {
    var w' := Ended(w, sid, keyOf);
    assert SessionOk(cfg, keyOf, w, sid, shared);
    forall other | other in w'.sessions ensures SessionOk(cfg, keyOf, w', other, shared) {
      assert SessionOk(cfg, keyOf, w, other, shared);
    }
  }

  lemma AdvancingKeeps(cfg: Cluster, keyOf: string -> int, w: World, sid: nat, s: Session, shared: bool)
    requires SessionsOk(cfg, keyOf, w, shared) && sid in w.sessions && s.request == w.sessions[sid].request
    requires SessionOk(cfg, keyOf, w.(sessions := w.sessions[sid := s]), sid, shared)
    ensures SessionsOk(cfg, keyOf, w.(sessions := w.sessions[sid := s]), shared)
  {
    var w' := w.(sessions := w.sessions[sid := s]);
    forall other | other in w'.sessions ensures SessionOk(cfg, keyOf, w', other, shared) {
      if other != sid { assert SessionOk(cfg, keyOf, w, other, shared); }
    }
  }

  /** The row goes in under ceilings it was admitted beneath. */
  lemma InsertedFits(cfg: Cluster, keyOf: string -> int, w: World, sid: nat, f: Fileset, shared: bool)
    requires SessionsOk(cfg, keyOf, w, shared) && TableOk(cfg, w, shared) && At(w, sid, Admitted)
    requires var r := w.sessions[sid].request;
      Live(f) && f.name == r.name && f.owner == r.user && f.storage == r.storage && f.allocatedBytes == r.bytes
    ensures TableOk(cfg, w.(filesets := w.filesets[w.nextFileset := f], nextFileset := w.nextFileset + 1), shared)
  {
    var r, filesets := w.sessions[sid].request, w.filesets[w.nextFileset := f];
    assert SessionOk(cfg, keyOf, w, sid, shared);
    forall slice: Slice | !slice.AllOn? || shared ensures Held(cfg, filesets, slice) <= CeilingOf(cfg, slice) {
      HeldAfterSet(cfg, w.filesets, w.nextFileset, f, slice);
      assert Weight(cfg, f, slice) == 0 || (Guards(r, slice, shared) && Weight(cfg, f, slice) == Asked(r, slice));
    }
    assert forall i :: i in w.filesets ==> i !in LiveIds(w.filesets, r.user, r.storage, r.name);
  }

  /** It is outside everything another session relies on. */
  lemma InsertedUnseen(cfg: Cluster, keyOf: string -> int, w: World, other: nat, f: Fileset, shared: bool)
    requires other in w.sessions && SessionOk(cfg, keyOf, w, other, shared) && w.nextFileset !in w.filesets
    requires f.owner != w.sessions[other].request.user
    requires forall slice :: Guards(w.sessions[other].request, slice, shared) ==> Weight(cfg, f, slice) == 0
    ensures SessionOk(cfg, keyOf, w.(filesets := w.filesets[w.nextFileset := f], nextFileset := w.nextFileset + 1),
                      other, shared)
  {
    forall slice
      ensures Held(cfg, w.filesets[w.nextFileset := f], slice) == Held(cfg, w.filesets, slice) + Weight(cfg, f, slice) {
      HeldAfterSet(cfg, w.filesets, w.nextFileset, f, slice);
    }
  }

  lemma InsertingKeeps(cfg: Cluster, keyOf: string -> int, w: World, sid: nat, now: int, shared: bool)
    requires shared ==> SharedKey(keyOf)
    requires SessionsOk(cfg, keyOf, w, shared) && TableOk(cfg, w, shared) && At(w, sid, Admitted)
    ensures SessionsOk(cfg, keyOf, Do(cfg, keyOf, w, Insert(sid, now)), shared)
      && TableOk(cfg, Do(cfg, keyOf, w, Insert(sid, now)), shared)
  {
    var r, w' := w.sessions[sid].request, Do(cfg, keyOf, w, Insert(sid, now));
    var f := NewFileset(r.name, r.user, r.storage, FS.Output, r.bytes, None, now);
    InsertedFits(cfg, keyOf, w, sid, f, shared);
    EndingKeeps(cfg, keyOf, w, sid, shared);
    forall other | other in w'.sessions ensures SessionOk(cfg, keyOf, w', other, shared) {
      OtherUserUnmoved(cfg, keyOf, w, sid, other, f, shared);
      InsertedUnseen(cfg, keyOf, Ended(w, sid, keyOf), other, f, shared);
    }
  }

  /** Two sessions never hold locks for the same user, so neither adds to the sums the other has read. */
  lemma OtherUserUnmoved(cfg: Cluster, keyOf: string -> int, w: World, sid: nat, other: nat, f: Fileset, shared: bool)
    requires shared ==> SharedKey(keyOf)
    requires SessionsOk(cfg, keyOf, w, shared) && sid in w.sessions && other in w.sessions && other != sid
    requires f.owner == w.sessions[sid].request.user
    ensures !shared && w.sessions[other].request.user != f.owner
    ensures forall slice :: Guards(w.sessions[other].request, slice, shared) ==> Weight(cfg, f, slice) == 0
  {
    assert SessionOk(cfg, keyOf, w, sid, shared);
    assert SessionOk(cfg, keyOf, w, other, shared);
  }

  lemma DecidingKeeps(cfg: Cluster, keyOf: string -> int, w: World, sid: nat, overAllocated: bool, drained: bool,
                      shared: bool)
    requires SessionsOk(cfg, keyOf, w, shared) && At(w, sid, CountRead)
    ensures SessionsOk(cfg, keyOf, Do(cfg, keyOf, w, Decide(sid, overAllocated, drained)), shared)
  {
    var s := w.sessions[sid];
    assert SessionOk(cfg, keyOf, w, sid, shared);
    if Admit(s.request.bytes, StateOf(cfg, s, overAllocated, drained)).Some? {
      EndingKeeps(cfg, keyOf, w, sid, shared);
    } else {
      AdvancingKeeps(cfg, keyOf, w, sid, s.(stage := Admitted), shared);
    }
  }

  lemma LockingKeeps(cfg: Cluster, keyOf: string -> int, w: World, sid: nat, r: Request, shared: bool)
    requires SessionsOk(cfg, keyOf, w, shared)
    ensures SessionsOk(cfg, keyOf, Do(cfg, keyOf, w, Lock(sid, r)), shared)
  {
    var w' := Do(cfg, keyOf, w, Lock(sid, r));
    if w' != w {
      forall other | other in w'.sessions ensures SessionOk(cfg, keyOf, w', other, shared) {
        if other != sid { assert SessionOk(cfg, keyOf, w, other, shared); }
      }
    }
  }

  lemma FindingKeeps(cfg: Cluster, keyOf: string -> int, w: World, sid: nat, shared: bool)
    requires SessionsOk(cfg, keyOf, w, shared) && At(w, sid, HasLock)
    ensures SessionsOk(cfg, keyOf, Do(cfg, keyOf, w, FindName(sid)), shared)
  {
    var s := w.sessions[sid];
    assert SessionOk(cfg, keyOf, w, sid, shared);
    if LiveIds(w.filesets, s.request.user, s.request.storage, s.request.name) != {} {
      EndingKeeps(cfg, keyOf, w, sid, shared);
    } else {
      AdvancingKeeps(cfg, keyOf, w, sid, s.(stage := NameFree), shared);
    }
  }

  /** A query's answer is what the table holds at that moment. */
  lemma ReadingKeeps(cfg: Cluster, keyOf: string -> int, w: World, sid: nat, s: Session, shared: bool)
    requires SessionsOk(cfg, keyOf, w, shared) && sid in w.sessions && s.request == w.sessions[sid].request
    requires w.sessions[sid].stage != HasLock && s.stage !in {HasLock, Admitted}
    requires forall slice :: Guards(s.request, slice, shared) && HasRead(s.stage, slice) ==>
               Seen(s, slice) == Held(cfg, w.filesets, slice)
                 || (HasRead(w.sessions[sid].stage, slice) && Seen(s, slice) == Seen(w.sessions[sid], slice))
    ensures SessionsOk(cfg, keyOf, w.(sessions := w.sessions[sid := s]), shared)
  {
    assert SessionOk(cfg, keyOf, w, sid, shared);
    AdvancingKeeps(cfg, keyOf, w, sid, s, shared);
  }

  lemma UsageKeeps(cfg: Cluster, keyOf: string -> int, w: World, sid: nat, shared: bool)
    requires SessionsOk(cfg, keyOf, w, shared) && At(w, sid, NameFree)
    ensures SessionsOk(cfg, keyOf, Do(cfg, keyOf, w, ReadUsage(sid)), shared)
  {
    ReadingKeeps(cfg, keyOf, w, sid, Do(cfg, keyOf, w, ReadUsage(sid)).sessions[sid], shared);
  }

  lemma StorageKeeps(cfg: Cluster, keyOf: string -> int, w: World, sid: nat, shared: bool)
    requires SessionsOk(cfg, keyOf, w, shared) && At(w, sid, UsageRead)
    ensures SessionsOk(cfg, keyOf, Do(cfg, keyOf, w, ReadStorage(sid)), shared)
  {
    ReadingKeeps(cfg, keyOf, w, sid, Do(cfg, keyOf, w, ReadStorage(sid)).sessions[sid], shared);
  }

  lemma CountKeeps(cfg: Cluster, keyOf: string -> int, w: World, sid: nat, shared: bool)
    requires SessionsOk(cfg, keyOf, w, shared) && At(w, sid, StorageRead)
    ensures SessionsOk(cfg, keyOf, Do(cfg, keyOf, w, ReadCount(sid)), shared)
  {
    ReadingKeeps(cfg, keyOf, w, sid, Do(cfg, keyOf, w, ReadCount(sid)).sessions[sid], shared);
  }

  /** What a session does before it inserts leaves the table alone. */
  lemma SessionMoveKeeps(cfg: Cluster, keyOf: string -> int, w: World, m: Move, shared: bool)
    requires !m.Insert? && !m.Free? && !m.TakeAway? && SessionsOk(cfg, keyOf, w, shared)
    ensures SessionsOk(cfg, keyOf, Do(cfg, keyOf, w, m), shared)
    ensures Do(cfg, keyOf, w, m).filesets == w.filesets && Do(cfg, keyOf, w, m).nextFileset == w.nextFileset
  {
    if Do(cfg, keyOf, w, m) != w {
      match m
      case Lock(sid, r) => LockingKeeps(cfg, keyOf, w, sid, r, shared);
      case FindName(sid) => FindingKeeps(cfg, keyOf, w, sid, shared);
      case Decide(sid, overAllocated, drained) => DecidingKeeps(cfg, keyOf, w, sid, overAllocated, drained, shared);
      case Abandon(sid) => EndingKeeps(cfg, keyOf, w, sid, shared);
      case ReadUsage(sid) => UsageKeeps(cfg, keyOf, w, sid, shared);
      case ReadStorage(sid) => StorageKeeps(cfg, keyOf, w, sid, shared);
      case ReadCount(sid) => CountKeeps(cfg, keyOf, w, sid, shared);
    }
  }

  lemma MoveKeeps(cfg: Cluster, keyOf: string -> int, w: World, m: Move, shared: bool)
    requires shared ==> SharedKey(keyOf)
    requires SessionsOk(cfg, keyOf, w, shared) && TableOk(cfg, w, shared)
    ensures SessionsOk(cfg, keyOf, Do(cfg, keyOf, w, m), shared) && TableOk(cfg, Do(cfg, keyOf, w, m), shared)
  {
    match m
    case Insert(sid, now) =>
      if At(w, sid, Admitted) { InsertingKeeps(cfg, keyOf, w, sid, now, shared); }
    case Free(id, now) =>
      if id in w.filesets {
        FreeShrinks(cfg, w.filesets, id, w.filesets[id].(state := FS.Released, releasedAt := Some(now)));
        ShrinkingKeeps(cfg, keyOf, w, Do(cfg, keyOf, w, m).filesets, shared);
      }
    case TakeAway(id) =>
      TakeAwayShrinks(cfg, w.filesets, id);
      ShrinkingKeeps(cfg, keyOf, w, w.filesets - {id}, shared);
    case _ =>
      SessionMoveKeeps(cfg, keyOf, w, m, shared);
  }

  lemma {:induction false} MovesKeep(cfg: Cluster, keyOf: string -> int, moves: seq<Move>, shared: bool)
    requires cfg.Valid() && (shared ==> SharedKey(keyOf))
    ensures SessionsOk(cfg, keyOf, After(cfg, keyOf, NOBODY, moves), shared)
      && TableOk(cfg, After(cfg, keyOf, NOBODY, moves), shared)
  {
    if moves == [] {
      forall slice ensures Held(cfg, NOBODY.filesets, slice) <= CeilingOf(cfg, slice) {
        assert Weights(cfg, NOBODY.filesets, slice) == map[];
        if slice.AllOn? && slice.storage in cfg.storages {
          var s := cfg.storages[slice.storage];
          assert s.capacity as real * s.fillLimit >= 0.0;
        }
      }
    } else {
      MovesKeep(cfg, keyOf, moves[..|moves| - 1], shared);
      MoveKeeps(cfg, keyOf, After(cfg, keyOf, NOBODY, moves[..|moves| - 1]), moves[|moves| - 1], shared);
    }
  }

  /** Under any interleaving no user exceeds their limit on a storage, their limit across caches or their number of
      filesets, and no two live filesets share owner, storage and name - with no help from the unique index. */
  lemma LocksKeepUserLimits(cfg: Cluster, keyOf: string -> int, moves: seq<Move>, user: string, storage: string)
    requires cfg.Valid()
    ensures var filesets := After(cfg, keyOf, NOBODY, moves).filesets;
      && Held(cfg, filesets, OfUserOn(user, storage)) <= StorageLimit(cfg, user, storage)
      && Held(cfg, filesets, OfUserOnCaches(user)) <= TotalLimit(cfg, user)
      && Held(cfg, filesets, CountOf(user)) <= cfg.maxFilesets
      && UniqueNames(filesets)
  {
    MovesKeep(cfg, keyOf, moves, false);
    var filesets := After(cfg, keyOf, NOBODY, moves).filesets;
    assert Held(cfg, filesets, OfUserOn(user, storage)) <= CeilingOf(cfg, OfUserOn(user, storage));
    assert Held(cfg, filesets, OfUserOnCaches(user)) <= CeilingOf(cfg, OfUserOnCaches(user));
    assert Held(cfg, filesets, CountOf(user)) <= CeilingOf(cfg, CountOf(user));
  }

  // ---- The capacity of a storage ----

  ghost predicate CapacityKept(cfg: Cluster, keyOf: string -> int, storage: string) {
    forall moves ::
      Held(cfg, After(cfg, keyOf, NOBODY, moves).filesets, AllOn(storage)) <= CeilingOf(cfg, AllOn(storage))
  }

  /** Nothing but the capacity of the storage stands in the way of a single request for all of it. */
  ghost predicate OpenStorage(cfg: Cluster, storage: string) {
    && IsCache(cfg, storage) && cfg.maxFilesets >= 1 && CeilingOf(cfg, AllOn(storage)) >= 1
    && forall user ::
         StorageLimit(cfg, user, storage) >= CeilingOf(cfg, AllOn(storage))
         && TotalLimit(cfg, user) >= CeilingOf(cfg, AllOn(storage))
  }

  /** The world once a session has come to a stage with nothing reserved anywhere. */
  ghost function Reached(w: World, key: int, sid: nat, r: Request, stage: Stage): World {
    w.(locks := w.locks[key := sid], sessions := w.sessions[sid := Session(r, stage, 0, 0, 0, 0)])
  }

  lemma NothingHeld(cfg: Cluster, filesets: map<nat, Fileset>, r: Request)
    requires filesets == map[]
    ensures LiveIds(filesets, r.user, r.storage, r.name) == {}
    ensures Held(cfg, filesets, OfUserOn(r.user, r.storage)) == 0 && Held(cfg, filesets, OfUserOnCaches(r.user)) == 0
    ensures Held(cfg, filesets, AllOn(r.storage)) == 0 && Held(cfg, filesets, CountOf(r.user)) == 0
  {
    forall slice ensures Held(cfg, filesets, slice) == 0 { assert Weights(cfg, filesets, slice) == map[]; }
  }

  lemma AloneLocks(cfg: Cluster, keyOf: string -> int, w: World, sid: nat, r: Request)
    requires w.filesets == map[] && IsCache(cfg, r.storage)
    ensures var k := keyOf(r.user);
      && (sid !in w.sessions && k !in w.locks ==> Do(cfg, keyOf, w, Lock(sid, r)) == Reached(w, k, sid, r, HasLock))
      && Do(cfg, keyOf, Reached(w, k, sid, r, HasLock), FindName(sid)) == Reached(w, k, sid, r, NameFree)
  {
    NothingHeld(cfg, w.filesets, r);
  }

  lemma AloneReads(cfg: Cluster, keyOf: string -> int, w: World, sid: nat, r: Request)
    requires w.filesets == map[]
    ensures var k := keyOf(r.user);
      && Do(cfg, keyOf, Reached(w, k, sid, r, NameFree), ReadUsage(sid)) == Reached(w, k, sid, r, UsageRead)
      && Do(cfg, keyOf, Reached(w, k, sid, r, UsageRead), ReadStorage(sid)) == Reached(w, k, sid, r, StorageRead)
  {
    NothingHeld(cfg, w.filesets, r);
  }

  lemma AloneCounts(cfg: Cluster, keyOf: string -> int, w: World, sid: nat, r: Request)
    requires w.filesets == map[]
    ensures Do(cfg, keyOf, Reached(w, keyOf(r.user), sid, r, StorageRead), ReadCount(sid))
      == Reached(w, keyOf(r.user), sid, r, CountRead)
  {
    NothingHeld(cfg, w.filesets, r);
  }

  lemma AloneDecides(cfg: Cluster, keyOf: string -> int, w: World, sid: nat, r: Request)
    requires OpenStorage(cfg, r.storage) && r.bytes == CeilingOf(cfg, AllOn(r.storage))
    ensures Do(cfg, keyOf, Reached(w, keyOf(r.user), sid, r, CountRead), Decide(sid, false, false))
      == Reached(w, keyOf(r.user), sid, r, Admitted)
  {
    assert StorageLimit(cfg, r.user, r.storage) >= CeilingOf(cfg, AllOn(r.storage));
  }

  /** While nothing is reserved, a request for all of an open storage is admitted, whoever else has been. */
  lemma AdmittedAlone(cfg: Cluster, keyOf: string -> int, moves: seq<Move>, sid: nat, r: Request)
      returns (more: seq<Move>)
    requires OpenStorage(cfg, r.storage) && r.bytes == CeilingOf(cfg, AllOn(r.storage))
    requires var w := After(cfg, keyOf, NOBODY, moves);
      w.filesets == map[] && sid !in w.sessions && keyOf(r.user) !in w.locks
    ensures After(cfg, keyOf, NOBODY, more)
      == Reached(After(cfg, keyOf, NOBODY, moves), keyOf(r.user), sid, r, Admitted)
  {
    var w, k := After(cfg, keyOf, NOBODY, moves), keyOf(r.user);
    AloneLocks(cfg, keyOf, w, sid, r);
    AloneReads(cfg, keyOf, w, sid, r);
    AloneCounts(cfg, keyOf, w, sid, r);
    AloneDecides(cfg, keyOf, w, sid, r);
    more := Onwards(cfg, keyOf, moves, Lock(sid, r));
    more := Onwards(cfg, keyOf, more, FindName(sid));
    more := Onwards(cfg, keyOf, more, ReadUsage(sid));
    more := Onwards(cfg, keyOf, more, ReadStorage(sid));
    more := Onwards(cfg, keyOf, more, ReadCount(sid));
    more := Onwards(cfg, keyOf, more, Decide(sid, false, false));
  }

  lemma Onwards(cfg: Cluster, keyOf: string -> int, moves: seq<Move>, m: Move) returns (more: seq<Move>)
    ensures After(cfg, keyOf, NOBODY, more) == Do(cfg, keyOf, After(cfg, keyOf, NOBODY, moves), m)
  {
    more := moves + [m];
    assert more[..|moves|] == moves;
  }

  /** Two users under different locks each ask for all of a storage, are both admitted, and both insert. */
  lemma TwoUsersOverrun(cfg: Cluster, keyOf: string -> int, storage: string, u: string, v: string)
      returns (moves: seq<Move>)
    requires OpenStorage(cfg, storage) && keyOf(u) != keyOf(v)
    ensures Held(cfg, After(cfg, keyOf, NOBODY, moves).filesets, AllOn(storage)) == 2 * CeilingOf(cfg, AllOn(storage))
  {
    var all := CeilingOf(cfg, AllOn(storage));
    var r, s := Request(u, storage, "a", all), Request(v, storage, "a", all);
    moves := AdmittedAlone(cfg, keyOf, [], 1, r);
    moves := AdmittedAlone(cfg, keyOf, moves, 2, s);
    moves := Onwards(cfg, keyOf, moves, Insert(1, 0));
    var f := NewFileset("a", u, storage, FS.Output, all, None, 0);
    assert After(cfg, keyOf, NOBODY, moves).filesets == map[1 := f];
    moves := Onwards(cfg, keyOf, moves, Insert(2, 0));
    var g := NewFileset("a", v, storage, FS.Output, all, None, 0);
    assert After(cfg, keyOf, NOBODY, moves).filesets == map[1 := f][2 := g];
    assert Weights(cfg, map[], AllOn(storage)) == map[];
    HeldAfterSet(cfg, map[], 1, f, AllOn(storage));
    HeldAfterSet(cfg, map[1 := f], 2, g, AllOn(storage));
  }

  /** The capacity of an open storage is safe under every interleaving if and only if every user's admissions take one
      and the same lock. Under a lock for each user it is safe only while admissions do not overlap. */
  lemma CapacityKeptIff(cfg: Cluster, keyOf: string -> int, storage: string)
    requires cfg.Valid() && OpenStorage(cfg, storage)
    ensures CapacityKept(cfg, keyOf, storage) <==> SharedKey(keyOf)
  {
    if SharedKey(keyOf) {
      forall moves
        ensures Held(cfg, After(cfg, keyOf, NOBODY, moves).filesets, AllOn(storage)) <= CeilingOf(cfg, AllOn(storage)) {
        MovesKeep(cfg, keyOf, moves, true);
      }
    } else {
      var u, v :| keyOf(u) != keyOf(v);
      var moves := TwoUsersOverrun(cfg, keyOf, storage, u, v);
    }
  }
}
