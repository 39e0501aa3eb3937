/** Submitting warms and flushes (src/stashd/services/warm.py, src/stashd/services/flush.py). */
module Submissions {
  import opened Numbers
  import opened Options
  import opened Transfers
  import opened FairShare
  import opened Scheduling
  import opened Allocation
  import opened Tables
  import FS = Filesets
  import References

  /** What a warm's preflight decided. */
  datatype WarmPlan = WarmPlan(source: string, sourcePath: string, target: string, name: string, bytesTotal: nat,
                               reservation: int)

  datatype WarmError =
    | NoStorage | NotACache | NotASource | BadName | PathMissing | Unreadable
    | IsOutput | SourceMismatch | NotRefreshing | BeingFilled

  datatype Probe = Probe(exists_: bool, readable: bool, bytesTotal: nat)

  /** _check_refresh: why an existing fileset may not be filled again. */
  function CheckRefresh(existing: Fileset, source: string, sourcePath: string, refresh: bool): Option<WarmError> {
    if existing.kind != FS.Cached then Some(IsOutput)
    else if existing.source != Some((source, sourcePath)) then Some(SourceMismatch)
    else if !refresh then Some(NotRefreshing)
    else if existing.state == FS.Populating then Some(BeingFilled)
    else None
  }

  /** preflight, on the fileset it saw then and the probe the source's daemon answered with. */
  function Preflight(cfg: Cluster, seen: Option<Fileset>, source: string, sourcePath: string, target: string,
                     name: string, size: Option<int>, refresh: bool, probe: Probe): Result<WarmPlan, WarmError> {
    if source !in cfg.storages || target !in cfg.storages then Err(NoStorage)
    else if !cfg.storages[source].source then Err(NotASource)
    else if !cfg.storages[target].cache then Err(NotACache)
    else if References.ValidateFilesetName(name).Err? then Err(BadName)
    else if !probe.exists_ then Err(PathMissing)
    else if !probe.readable then Err(Unreadable)
    else if seen.Some? && CheckRefresh(seen.value, source, sourcePath, refresh).Some? then
      Err(CheckRefresh(seen.value, source, sourcePath, refresh).value)
    else Ok(WarmPlan(source, sourcePath, target, name, probe.bytesTotal,
                     AllocationForSource(probe.bytesTotal, cfg.headroom, size)))
  }

  /** A plan some preflight under this config returns. */
  ghost predicate Preflighted(cfg: Cluster, plan: WarmPlan) {
    exists seen, size, refresh, probe ::
      Preflight(cfg, seen, plan.source, plan.sourcePath, plan.target, plan.name, size, refresh, probe) == Ok(plan)
  }

  /** A plan reserves at least what was measured, at least a byte, and on a cache storage. */
  lemma PlanCoversSource(cfg: Cluster, plan: WarmPlan)
    requires cfg.headroom >= 1.0 && Preflighted(cfg, plan)
    ensures plan.reservation >= 1 && plan.bytesTotal <= plan.reservation
    ensures IsCache(cfg, plan.target)
  {
    var seen, size, refresh, probe :|
      Preflight(cfg, seen, plan.source, plan.sourcePath, plan.target, plan.name, size, refresh, probe) == Ok(plan);
    ReservationCoversSource(plan.bytesTotal, cfg.headroom, size);
  }

  /** The rows _check_queue_length counts. */
  function Queued(transfers: map<nat, Transfer>, user: string): set<nat> {
    set i | i in transfers && transfers[i].user == user && transfers[i].state in {Submitted, Assigned}
  }

  /** What admission says to a warm that needs `extra` more bytes; a warm that needs none is not asked. */
  ghost function WarmAdmission(cfg: Cluster, db: Database, owner: string, storage: string, extra: int): Option<Error> {
    if extra <= 0 then None
    else if storage !in cfg.storages then Some(NotFound)
    else
      match Admit(extra, AdmissionState(cfg, db, owner, storage))
      case Some(refusal) => Some(Refused(refusal))
      case None => None
  }

  /** The fileset a warm fills: the one it found, with a reservation that only grows, or a new one. */
  ghost function Filling(filesets: map<nat, Fileset>, found: Option<nat>, owner: string, plan: WarmPlan,
                         now: int): Fileset
    requires found.Some? ==> found.value in filesets
  {
    var f := match found
      case Some(i) => filesets[i].(allocatedBytes := Max(filesets[i].allocatedBytes, plan.reservation))
      case None =>
        NewFileset(plan.name, owner, plan.target, FS.Cached, plan.reservation,
                   Some((plan.source, plan.sourcePath)), now);
    f.(warmStartedAt := Some(now))
  }

  /** What the first commit stores: the reservation and a queued transfer. */
  ghost function WarmCommitted(db: Database, found: Option<nat>, owner: string, plan: WarmPlan, now: int): Database
    requires found.Some? ==> found.value in db.filesets
  {
    var id := if found.Some? then found.value else db.nextFileset;
    db.(filesets := db.filesets[id := Filling(db.filesets, found, owner, plan, now)],
        nextFileset := if found.Some? then db.nextFileset else db.nextFileset + 1,
        transfers := db.transfers[db.nextTransfer :=
                                  NewTransfer(Warm, owner, id, Some(plan.source + ":" + plan.sourcePath),
                                              Route(plan.source, plan.target), plan.bytesTotal, false, now)],
        nextTransfer := db.nextTransfer + 1)
  }

  /** What follows the first commit: the destination is prepared and the points are charged. */
  function Prepared(cfg: Cluster, first: Database, id: nat, owner: string, bytesTotal: nat, now: int,
                    prepared: Option<string>): (Database, Verdict)
    requires id in first.filesets
  {
    var f := first.filesets[id];
    if prepared.None? then (first, Raised(DaemonRefused))
    else if f.state != FS.Creating && !FS.Legal(f.state, FS.Populating) then (first, Raised(InvalidTransition))
    else
      (first.(filesets := first.filesets[id := f.(path := prepared.value, state := FS.Populating)],
              accounts := Charged(first.accounts, owner, PointsForBytes(Warm, bytesTotal, cfg.pointsPerGib), now,
                                  cfg.decay)), Done)
  }

  /** Why a warm is refused: the queue of its user is full, or admission says no to what it would add. */
  ghost function WarmObjection(cfg: Cluster, db: Database, owner: string, plan: WarmPlan): Option<Error> {
    if |Queued(db.transfers, owner)| >= cfg.queuedPerUser then Some(TooManyQueued)
    else
      var found := LiveFileset(db.filesets, owner, plan.target, plan.name);
      WarmAdmission(cfg, db, owner, plan.target,
                    plan.reservation - (if found.Some? then db.filesets[found.value].allocatedBytes else 0))
  }

  /** submit_warm. `prepared` is the path the target's daemon answers with; None when it does not.
      The first commit comes before the destination is prepared and the points are charged. */
  ghost function SubmitWarm(cfg: Cluster, db: Database, owner: string, plan: WarmPlan, now: int,
                            prepared: Option<string>): (Database, Verdict) {
    var objection := WarmObjection(cfg, db, owner, plan);
    if objection.Some? then (db, Raised(objection.value))
    else
      var found := LiveFileset(db.filesets, owner, plan.target, plan.name);
      var id := if found.Some? then found.value else db.nextFileset;
      Prepared(cfg, WarmCommitted(db, found, owner, plan, now), id, owner, plan.bytesTotal, now, prepared)
  }

  /** What a flush's preflight decided: the fileset by its name, where it goes, what was measured in it, and
      whether it is kept afterwards. */
  datatype FlushPlan = FlushPlan(storage: string, name: string, target: string, targetPath: string,
                                 measured: nat, keep: bool)

  function FlushBytes(f: Fileset, flush: FlushPlan): nat {
    if flush.measured != 0 then flush.measured else f.usedBytes
  }

  /** What the first commit stores: a queued transfer, and the fileset taken up. */
  function FlushCommitted(db: Database, id: nat, owner: string, flush: FlushPlan, now: int): Database
    requires id in db.filesets
  {
    var f := db.filesets[id];
    var t := NewTransfer(Flush, owner, id, Some(flush.target + ":" + flush.targetPath),
                         Route(flush.storage, flush.target),
                         FlushBytes(f, flush), !flush.keep, now);
    db.(transfers := db.transfers[db.nextTransfer := t], nextTransfer := db.nextTransfer + 1,
        filesets := db.filesets[id := f.(state := FS.Flushing)])
  }

  /** submit_flush, on the live fileset its plan names. It reserves nothing. The charge is a commit of its own, after
      the first; `charged` says whether the request lives to make it. */
  ghost function SubmitFlush(cfg: Cluster, db: Database, owner: string, flush: FlushPlan, now: int,
                             charged: bool): (Database, Verdict) {
    match LiveFileset(db.filesets, owner, flush.storage, flush.name)
    case None => (db, Raised(NotFound))
    case Some(id) =>
      if |Queued(db.transfers, owner)| >= cfg.queuedPerUser then (db, Raised(TooManyQueued))
      else if !FS.Legal(db.filesets[id].state, FS.Flushing) then (db, Raised(InvalidTransition))
      else
        var first := FlushCommitted(db, id, owner, flush, now);
        var points := PointsForBytes(Flush, FlushBytes(db.filesets[id], flush), cfg.pointsPerGib);
        if charged then (first.(accounts := Charged(db.accounts, owner, points, now, cfg.decay)), Done)
        else (first, Raised(Interrupted))
  }
}
