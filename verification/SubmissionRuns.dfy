/** From what was asked for to what comes of it: warms and flushes from their submission to any later state. */
module SubmissionRuns {
  import opened Options
  import opened Transfers
  import opened Scheduling
  import opened Tables
  import opened Releases
  import opened Events
  import opened Submissions
  import opened Runs
  import opened FilesetRuns
  import opened RowRuns
  import References
  import FS = Filesets

  // ---- What may be asked for ----

  /** A warm passes its preflight if and only if it reads from a source and fills a cache under a name, finds what it is
      to read, and refreshes, where there is something under the name, that very thing: asked to, from the same place,
      and not while it is being filled. */
  lemma PreflightIff(cfg: Cluster, seen: Option<Fileset>, source: string, sourcePath: string, target: string,
                     name: string, size: Option<int>, refresh: bool, probe: Probe)
    ensures Preflight(cfg, seen, source, sourcePath, target, name, size, refresh, probe).Ok?
      <==> && source in cfg.storages && cfg.storages[source].source
           && target in cfg.storages && cfg.storages[target].cache
           && References.ValidateFilesetName(name).Ok? && probe.exists_ && probe.readable
           && (seen.Some? ==>
                && refresh && seen.value.kind == FS.Cached && seen.value.source == Some((source, sourcePath))
                && seen.value.state != FS.Populating)
  {
  }

  /** What a preflight promises is what it was asked for, of the bytes it measured, and reserves the least that is at
      least a byte, what was asked for, and what was measured with its headroom. */
  lemma PreflightPlans(cfg: Cluster, seen: Option<Fileset>, source: string, sourcePath: string, target: string,
                       name: string, size: Option<int>, refresh: bool, probe: Probe, n: int)
    requires Preflight(cfg, seen, source, sourcePath, target, name, size, refresh, probe).Ok?
    ensures var plan := Preflight(cfg, seen, source, sourcePath, target, name, size, refresh, probe).value;
      && plan.source == source && plan.sourcePath == sourcePath && plan.target == target && plan.name == name
      && plan.bytesTotal == probe.bytesTotal
      && (n >= plan.reservation
          <==> n >= 1 && n as real >= probe.bytesTotal as real * cfg.headroom && (size.Some? ==> n >= size.value))
  {
    var x := probe.bytesTotal as real * cfg.headroom;
    assert (-x).Floor as real <= -x < (-x).Floor as real + 1.0;
  }

  // ---- Warms ----

  /** What a submission says of the transfer it queues. */
  ghost predicate IsJob(u: Transfer, kind: Kind, owner: string, route: Route, peer: string, bytes: nat, at: int) {
    && u.kind == kind && u.user == owner && u.route == route && u.peerRef == Some(peer) && u.bytesTotal == bytes
    && u.submittedAt == at
  }

  ghost predicate IsNamed(f: Fileset, owner: string, storage: string, name: string) {
    f.owner == owner && f.storage == storage && f.name == name
  }

  /** What a warm that gets into the queue leaves of the fileset it fills: the one of that name if there is one,
      whose reservation only grows, and a new one otherwise; being filled in the place its daemon has prepared,
      or as it was if it has not. */
  lemma WarmFills(cfg: Cluster, db: Database, owner: string, plan: WarmPlan, now: int, prepared: Option<string>)
    requires Linked(db) && db.nextTransfer in SubmitWarm(cfg, db, owner, plan, now, prepared).0.transfers
    ensures var r, found := SubmitWarm(cfg, db, owner, plan, now, prepared),
      LiveFileset(db.filesets, owner, plan.target, plan.name);
      var i := if found.Some? then found.value else db.nextFileset;
      && r.0.transfers[db.nextTransfer].filesetId == i && i in r.0.filesets
      && r.0.filesets == db.filesets[i := r.0.filesets[i]]
      && r.0.drained == db.drained && r.0.stats == db.stats
      && var g := r.0.filesets[i];
         && IsNamed(g, owner, plan.target, plan.name) && g.warmStartedAt == Some(now)
         && (prepared.None? ==> r.1 == Raised(DaemonRefused))
         && (r.1 == Done ==> g.state == FS.Populating && Some(g.path) == prepared)
         && (if found.Some? then
               var f := db.filesets[i];
               && g.allocatedBytes == (if f.allocatedBytes < plan.reservation then plan.reservation
                                       else f.allocatedBytes)
               && (r.1 != Done ==> g.state == f.state && g.path == f.path)
               && g.kind == f.kind && g.source == f.source && g.usedBytes == f.usedBytes && g.createdAt == f.createdAt
             else
               && g.allocatedBytes == plan.reservation && g.usedBytes == 0
               && g.kind == FS.Cached && g.source == Some((plan.source, plan.sourcePath)) && g.createdAt == now
               && (r.1 != Done ==> g.state == FS.Creating && g.path == ""))
  {
    var found := LiveFileset(db.filesets, owner, plan.target, plan.name);
    var i := if found.Some? then found.value else db.nextFileset;
    var first := WarmCommitted(db, found, owner, plan, now);
    if WarmObjection(cfg, db, owner, plan).None? {
      assert SubmitWarm(cfg, db, owner, plan, now, prepared)
        == Prepared(cfg, first, i, owner, plan.bytesTotal, now, prepared);
    }
  }

  lemma WarmQueued(cfg: Cluster, db: Database, owner: string, plan: WarmPlan, now: int, prepared: Option<string>)
    requires Linked(db) && db.nextTransfer in SubmitWarm(cfg, db, owner, plan, now, prepared).0.transfers
    ensures var r := SubmitWarm(cfg, db, owner, plan, now, prepared).0;
      && r.transfers == db.transfers[db.nextTransfer := r.transfers[db.nextTransfer]]
      && IsJob(r.transfers[db.nextTransfer], Warm, owner, Route(plan.source, plan.target),
               plan.source + ":" + plan.sourcePath, plan.bytesTotal, now)
      && r.transfers[db.nextTransfer].state == Submitted && r.transfers[db.nextTransfer].retryAfter == None
  {
  }

  /** Whatever becomes of a warm, as long as its row is kept it is the one that was asked for, for the fileset that was
      asked for. */
  lemma WarmLasts(cfg: Cluster, db: Database, owner: string, plan: WarmPlan, now: int, prepared: Option<string>,
                  run: seq<Action>)
    requires Sound(cfg, db)
    requires db.nextTransfer in Step(cfg, db, DoWarm(owner, plan, now, prepared)).0.transfers
    ensures var after, id := After(cfg, Step(cfg, db, DoWarm(owner, plan, now, prepared)).0, run), db.nextTransfer;
      id in after.transfers ==>
        && IsJob(after.transfers[id], Warm, owner, Route(plan.source, plan.target),
                 plan.source + ":" + plan.sourcePath, plan.bytesTotal, now)
        && after.transfers[id].filesetId in after.filesets
        && IsNamed(after.filesets[after.transfers[id].filesetId], owner, plan.target, plan.name)
  {
    var first := Step(cfg, db, DoWarm(owner, plan, now, prepared)).0;
    StepKeepsSound(cfg, db, DoWarm(owner, plan, now, prepared));
    WarmFills(cfg, db, owner, plan, now, prepared);
    WarmQueued(cfg, db, owner, plan, now, prepared);
    JobLasts(cfg, first, run, db.nextTransfer);
    NamesLast(cfg, first, run, first.transfers[db.nextTransfer].filesetId);
  }

  // ---- Flushes ----

  /** What a flush that gets into the queue leaves: its transfer, of the bytes that were measured or else of those known
      to be used, and its fileset FLUSHING, with nothing reserved or freed. */
  lemma FlushQueued(cfg: Cluster, db: Database, owner: string, flush: FlushPlan, now: int, charged: bool)
    requires Linked(db) && db.nextTransfer in SubmitFlush(cfg, db, owner, flush, now, charged).0.transfers
    ensures var r, found := SubmitFlush(cfg, db, owner, flush, now, charged),
      LiveFileset(db.filesets, owner, flush.storage, flush.name);
      && found.Some? && r.1 == (if charged then Done else Raised(Interrupted))
      && var f, t := db.filesets[found.value], r.0.transfers[db.nextTransfer];
         && r.0.transfers == db.transfers[db.nextTransfer := t]
         && r.0.filesets == db.filesets[found.value := f.(state := FS.Flushing)]
         && t.filesetId == found.value && t.state == Submitted && t.retryAfter == None
         && IsJob(t, Flush, owner, Route(flush.storage, flush.target), flush.target + ":" + flush.targetPath,
                  if flush.measured > 0 then flush.measured else f.usedBytes, now)
         && (t.releaseAfter <==> !flush.keep)
  {
  }

  /** What a finish that is taken in makes of the fileset of a flush. */
  lemma FinishedFlush(cfg: Cluster, db: Database, e: Event, now: int, store: Option<DeleteAnswer>)
    requires Linked(db) && ApplyEvent(cfg, db, e, now, store).1 == Done && e.kind == Finished
    requires db.transfers[e.transferId].kind == Flush
    ensures var t, after := db.transfers[e.transferId], ApplyEvent(cfg, db, e, now, store).0;
      && t.filesetId in after.filesets
      && after.filesets[t.filesetId].state
         == (if !t.releaseAfter || store.None? then FS.Ready
             else match store.value
               case Deleted => FS.Released
               case DeleteRefused(_, _) => FS.Failed
               case NoAnswer => FS.Releasing)
  {
  }

  lemma FlushLasts(cfg: Cluster, db: Database, owner: string, flush: FlushPlan, now: int, charged: bool,
                   run: seq<Action>)
    requires Sound(cfg, db)
    requires db.nextTransfer in Step(cfg, db, DoFlush(owner, flush, now, charged)).0.transfers
    ensures var after, id := After(cfg, Step(cfg, db, DoFlush(owner, flush, now, charged)).0, run), db.nextTransfer;
      var found := LiveFileset(db.filesets, owner, flush.storage, flush.name);
      && Linked(after) && found.Some?
      && (id in after.transfers ==>
           && IsJob(after.transfers[id], Flush, owner, Route(flush.storage, flush.target),
                    flush.target + ":" + flush.targetPath,
                    if flush.measured > 0 then flush.measured else db.filesets[found.value].usedBytes, now)
           && after.transfers[id].filesetId == found.value
           && (after.transfers[id].releaseAfter <==> !flush.keep))
  {
    var first := Step(cfg, db, DoFlush(owner, flush, now, charged)).0;
    assert first == SubmitFlush(cfg, db, owner, flush, now, charged).0;
    FlushQueued(cfg, db, owner, flush, now, charged);
    FlushKeepsSound(cfg, db, owner, flush, now, charged);
    JobLasts(cfg, first, run, db.nextTransfer);
    RunsAreSound(cfg, first, run);
  }

  lemma FlushKeepsSound(cfg: Cluster, db: Database, owner: string, flush: FlushPlan, now: int, charged: bool)
    requires Sound(cfg, db)
    ensures Sound(cfg, SubmitFlush(cfg, db, owner, flush, now, charged).0)
  {
    StepKeepsSound(cfg, db, DoFlush(owner, flush, now, charged));
  }

  /** From the call to the end: when a flush finishes, in whatever state the tables have got into, its fileset is
      released if and only if it was not to be kept and its daemon confirms the delete. One that was to be kept is
      READY; one that was not is left RELEASING or FAILED where the delete gets no answer or a refusal. */
  lemma FlushReleasesIff(cfg: Cluster, db: Database, owner: string, flush: FlushPlan, now: int, charged: bool,
                         run: seq<Action>, e: Event, later: int, store: Option<DeleteAnswer>)
    requires Sound(cfg, db)
    requires db.nextTransfer in Step(cfg, db, DoFlush(owner, flush, now, charged)).0.transfers
    requires var after := After(cfg, Step(cfg, db, DoFlush(owner, flush, now, charged)).0, run);
      && e.transferId == db.nextTransfer && e.kind == Finished
      && Step(cfg, after, DoEvent(e, later, store)).1 == Done
    ensures var after := After(cfg, Step(cfg, db, DoFlush(owner, flush, now, charged)).0, run);
      var end, found := Step(cfg, after, DoEvent(e, later, store)).0,
        LiveFileset(db.filesets, owner, flush.storage, flush.name);
      && found.Some? && found.value in end.filesets
      && (end.filesets[found.value].state == FS.Released <==> !flush.keep && store == Some(Deleted))
      && (flush.keep || store.None? ==> end.filesets[found.value].state == FS.Ready)
      && (!flush.keep && store == Some(NoAnswer) ==> end.filesets[found.value].state == FS.Releasing)
      && (!flush.keep && store.Some? && store.value.DeleteRefused? ==> end.filesets[found.value].state == FS.Failed)
  {
    var after := After(cfg, Step(cfg, db, DoFlush(owner, flush, now, charged)).0, run);
    FlushLasts(cfg, db, owner, flush, now, charged, run);
    FinishedFlush(cfg, after, e, later, store);
  }
}
