/** A create step by step, against the create that is one call. */
module AdmissionSteps {
  import opened Options
  import opened Allocation
  import opened Tables
  import opened Admissions
  import opened Reservations
  import AdmissionRuns
  import References
  import FS = Filesets

  /** What a request has read once it has looked for its name and made its three reads. */
  ghost function ReadBy(cfg: Cluster, w: World, r: Request): Session {
    Session(r, CountRead, Held(cfg, w.filesets, OfUserOn(r.user, r.storage)),
            Held(cfg, w.filesets, OfUserOnCaches(r.user)), Held(cfg, w.filesets, AllOn(r.storage)),
            Held(cfg, w.filesets, CountOf(r.user)))
  }

  /** A request takes its lock, looks for its name and reads, with nobody else's steps in between. */
  ghost function Read(cfg: Cluster, keyOf: string -> int, w: World, sid: nat, r: Request): World {
    var found := Do(cfg, keyOf, Do(cfg, keyOf, w, Lock(sid, r)), FindName(sid));
    Do(cfg, keyOf, Do(cfg, keyOf, Do(cfg, keyOf, found, ReadUsage(sid)), ReadStorage(sid)), ReadCount(sid))
  }

  lemma FoundAlone(cfg: Cluster, keyOf: string -> int, w: World, sid: nat, r: Request)
    requires sid !in w.sessions && keyOf(r.user) !in w.locks && IsCache(cfg, r.storage)
    ensures Do(cfg, keyOf, Do(cfg, keyOf, w, Lock(sid, r)), FindName(sid))
         == if LiveIds(w.filesets, r.user, r.storage, r.name) != {} then w
            else w.(locks := w.locks[keyOf(r.user) := sid],
                    sessions := w.sessions[sid := Session(r, NameFree, 0, 0, 0, 0)])
  {
    var locked := Do(cfg, keyOf, w, Lock(sid, r));
    assert locked.locks - {keyOf(r.user)} == w.locks && locked.sessions - {sid} == w.sessions;
  }

  lemma ReadsAlone(cfg: Cluster, keyOf: string -> int, found: World, sid: nat, r: Request)
    requires sid in found.sessions && found.sessions[sid] == Session(r, NameFree, 0, 0, 0, 0)
    ensures Do(cfg, keyOf, Do(cfg, keyOf, Do(cfg, keyOf, found, ReadUsage(sid)), ReadStorage(sid)), ReadCount(sid))
         == found.(sessions := found.sessions[sid := ReadBy(cfg, found, r)])
  {
  }

  lemma ReadAlone(cfg: Cluster, keyOf: string -> int, w: World, sid: nat, r: Request)
    requires sid !in w.sessions && keyOf(r.user) !in w.locks && IsCache(cfg, r.storage)
    requires LiveIds(w.filesets, r.user, r.storage, r.name) == {}
    ensures Read(cfg, keyOf, w, sid, r)
         == w.(locks := w.locks[keyOf(r.user) := sid], sessions := w.sessions[sid := ReadBy(cfg, w, r)])
  {
    FoundAlone(cfg, keyOf, w, sid, r);
    ReadsAlone(cfg, keyOf, Do(cfg, keyOf, Do(cfg, keyOf, w, Lock(sid, r)), FindName(sid)), sid, r);
  }

  /** Where the name is taken the request ends there, and its further steps are none. */
  lemma TurnedAway(cfg: Cluster, keyOf: string -> int, w: World, sid: nat, r: Request, overdrawn: bool, drained: bool,
                   now: int)
    requires sid !in w.sessions && keyOf(r.user) !in w.locks && IsCache(cfg, r.storage)
    requires LiveIds(w.filesets, r.user, r.storage, r.name) != {}
    ensures Served(cfg, keyOf, w, sid, r, overdrawn, drained, now) == w
  {
    FoundAlone(cfg, keyOf, w, sid, r);
  }

  lemma DecidedAlone(cfg: Cluster, keyOf: string -> int, w: World, sid: nat, r: Request, overdrawn: bool, drained: bool,
                     now: int)
    requires sid !in w.sessions && keyOf(r.user) !in w.locks && IsCache(cfg, r.storage)
    ensures var read := w.(locks := w.locks[keyOf(r.user) := sid], sessions := w.sessions[sid := ReadBy(cfg, w, r)]);
      Do(cfg, keyOf, Do(cfg, keyOf, read, Decide(sid, overdrawn, drained)), Insert(sid, now))
      == if Admit(r.bytes, StateOf(cfg, ReadBy(cfg, w, r), overdrawn, drained)).Some? then w
         else w.(filesets := w.filesets[w.nextFileset :=
                                        NewFileset(r.name, r.user, r.storage, FS.Output, r.bytes, None, now)],
                 nextFileset := w.nextFileset + 1)
  {
    var read := w.(locks := w.locks[keyOf(r.user) := sid], sessions := w.sessions[sid := ReadBy(cfg, w, r)]);
    var decided := Do(cfg, keyOf, read, Decide(sid, overdrawn, drained));
    assert read.locks - {keyOf(r.user)} == w.locks && read.sessions - {sid} == w.sessions;
    assert decided.sessions - {sid} == w.sessions;
  }

  /** Then it decides and inserts its row. */
  ghost function Served(cfg: Cluster, keyOf: string -> int, w: World, sid: nat, r: Request, overdrawn: bool,
                        drained: bool, now: int): World
  {
    Do(cfg, keyOf, Do(cfg, keyOf, Read(cfg, keyOf, w, sid, r), Decide(sid, overdrawn, drained)), Insert(sid, now))
  }

  lemma LetIn(cfg: Cluster, keyOf: string -> int, w: World, sid: nat, r: Request, overdrawn: bool, drained: bool,
              now: int)
    requires sid !in w.sessions && keyOf(r.user) !in w.locks && IsCache(cfg, r.storage)
    requires LiveIds(w.filesets, r.user, r.storage, r.name) == {}
    ensures Served(cfg, keyOf, w, sid, r, overdrawn, drained, now)
      == if Admit(r.bytes, StateOf(cfg, ReadBy(cfg, w, r), overdrawn, drained)).Some? then w
         else w.(filesets := w.filesets[w.nextFileset :=
                                        NewFileset(r.name, r.user, r.storage, FS.Output, r.bytes, None, now)],
                 nextFileset := w.nextFileset + 1)
  {
    ReadAlone(cfg, keyOf, w, sid, r);
    DecidedAlone(cfg, keyOf, w, sid, r, overdrawn, drained, now);
  }

  /** The sums a request reads one by one are those a create is decided on. */
  lemma SameState(cfg: Cluster, db: Database, w: World, r: Request)
    requires w.filesets == db.filesets && r.storage in cfg.storages
    ensures StateOf(cfg, ReadBy(cfg, w, r), AdmissionRuns.Overdrawn(db, r.user), r.storage in db.drained)
         == AdmissionState(cfg, db, r.user, r.storage)
  {
    AdmissionRuns.OverdrawnIff(cfg, db, r.user, r.storage);
  }

  /** A request that nobody interleaves with ends as a create does up to its daemon's answer: with the same
      filesets, and its lock given back. */
  lemma AloneIsCreate(cfg: Cluster, keyOf: string -> int, db: Database, w: World, sid: nat, r: Request, now: int)
    requires w.filesets == db.filesets && w.nextFileset == db.nextFileset
    requires sid !in w.sessions && keyOf(r.user) !in w.locks
    requires IsCache(cfg, r.storage) && References.ValidateFilesetName(r.name).Ok?
    ensures var overdrawn, drained := AdmissionRuns.Overdrawn(db, r.user), r.storage in db.drained;
      var after := Served(cfg, keyOf, w, sid, r, overdrawn, drained, now);
      var created := CreateOutput(cfg, db, r.user, r.storage, r.name, r.bytes, now, CreateUnanswered).0;
      after == w.(filesets := created.filesets, nextFileset := created.nextFileset)
  {
    var overdrawn, drained := AdmissionRuns.Overdrawn(db, r.user), r.storage in db.drained;
    CreateAlone(cfg, db, r, now);
    if LiveIds(w.filesets, r.user, r.storage, r.name) == {} {
      SameState(cfg, db, w, r);
      LetIn(cfg, keyOf, w, sid, r, overdrawn, drained, now);
    } else {
      TurnedAway(cfg, keyOf, w, sid, r, overdrawn, drained, now);
    }
  }

  lemma CreateAlone(cfg: Cluster, db: Database, r: Request, now: int)
    requires IsCache(cfg, r.storage) && References.ValidateFilesetName(r.name).Ok?
    ensures var created := CreateOutput(cfg, db, r.user, r.storage, r.name, r.bytes, now, CreateUnanswered).0;
      var state := AdmissionState(cfg, db, r.user, r.storage);
      if LiveIds(db.filesets, r.user, r.storage, r.name) != {} || Admit(r.bytes, state).Some? then created == db
      else
        && created.nextFileset == db.nextFileset + 1
        && created.filesets
           == db.filesets[db.nextFileset := NewFileset(r.name, r.user, r.storage, FS.Output, r.bytes, None, now)]
  {
  }
}
