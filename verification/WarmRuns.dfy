/** What a warm leaves behind when it goes wrong after its first commit. */
module WarmRuns {
  import opened Options
  import opened Transfers
  import opened Tables
  import opened Submissions
  import FS = Filesets

  /** What a warm finds under its name when it is submitted. */
  ghost function FoundState(db: Database, owner: string, plan: WarmPlan): Option<FS.FilesetState> {
    var found := LiveFileset(db.filesets, owner, plan.target, plan.name);
    if found.Some? then Some(db.filesets[found.value].state) else None
  }

  /** A warm that neither the queue nor admission stops raises after its first commit if and only if the
      fileset it finds is being filled, flushed or released by then, whatever its preflight had seen; its
      transfer is in the queue either way. */
  lemma WarmRaisesIff(cfg: Cluster, db: Database, owner: string, plan: WarmPlan, now: int, path: string)
    requires WarmObjection(cfg, db, owner, plan).None?
    ensures var r := SubmitWarm(cfg, db, owner, plan, now, Some(path));
      && r.1 == (if FoundState(db, owner, plan) in {Some(FS.Populating), Some(FS.Flushing), Some(FS.Releasing)}
                 then Raised(InvalidTransition) else Done)
      && db.nextTransfer in r.0.transfers && r.0.transfers[db.nextTransfer].state == Submitted
  {
    var found := LiveFileset(db.filesets, owner, plan.target, plan.name);
    var id := if found.Some? then found.value else db.nextFileset;
    var first := WarmCommitted(db, found, owner, plan, now);
    assert SubmitWarm(cfg, db, owner, plan, now, Some(path))
      == Prepared(cfg, first, id, owner, plan.bytesTotal, now, Some(path));
    assert found.Some? ==> db.filesets[id].state != FS.Released && first.filesets[id].state == db.filesets[id].state;
  }

  /** A preflight that saw the fileset as it still is keeps a warm from one that is being filled, so only flushing and
      releasing are left. */
  lemma FreshWarmRaisesIff(cfg: Cluster, db: Database, owner: string, plan: WarmPlan, size: Option<int>, refresh: bool,
                           probe: Probe, i: nat, now: int, path: string)
    requires LiveFileset(db.filesets, owner, plan.target, plan.name) == Some(i)
    requires Preflight(cfg, Some(db.filesets[i]), plan.source, plan.sourcePath, plan.target, plan.name, size, refresh,
                       probe) == Ok(plan)
    requires WarmObjection(cfg, db, owner, plan).None?
    ensures SubmitWarm(cfg, db, owner, plan, now, Some(path)).1 == Raised(InvalidTransition)
      <==> db.filesets[i].state in {FS.Flushing, FS.Releasing}
  {
    WarmRaisesIff(cfg, db, owner, plan, now, path);
    assert db.filesets[i].state != FS.Populating;
  }

  /** An admitted warm fills an output fileset if and only if that is what it finds: nothing looks at the kind again. */
  lemma FillsOutputIff(cfg: Cluster, db: Database, owner: string, plan: WarmPlan, now: int, prepared: Option<string>)
    requires WarmObjection(cfg, db, owner, plan).None?
    ensures var r, found := SubmitWarm(cfg, db, owner, plan, now, prepared).0,
      LiveFileset(db.filesets, owner, plan.target, plan.name);
      && db.nextTransfer in r.transfers && r.transfers[db.nextTransfer].filesetId in r.filesets
      && (r.filesets[r.transfers[db.nextTransfer].filesetId].kind == FS.Output
          <==> found.Some? && db.filesets[found.value].kind == FS.Output)
  {
    var found := LiveFileset(db.filesets, owner, plan.target, plan.name);
    var id := if found.Some? then found.value else db.nextFileset;
    var first := WarmCommitted(db, found, owner, plan, now);
    assert SubmitWarm(cfg, db, owner, plan, now, prepared)
      == Prepared(cfg, first, id, owner, plan.bytesTotal, now, prepared);
  }

  /** So it never does while the name holds what its preflight saw there, even if in another state. */
  lemma UnchangedNameIsSafe(cfg: Cluster, db: Database, owner: string, plan: WarmPlan, seen: Option<Fileset>,
                            size: Option<int>, refresh: bool, probe: Probe, now: int, prepared: Option<string>)
    requires Preflight(cfg, seen, plan.source, plan.sourcePath, plan.target, plan.name, size, refresh,
                       probe) == Ok(plan)
    requires WarmObjection(cfg, db, owner, plan).None?
    requires var found := LiveFileset(db.filesets, owner, plan.target, plan.name);
      found.Some? ==> seen.Some? && db.filesets[found.value].kind == seen.value.kind
    ensures var r := SubmitWarm(cfg, db, owner, plan, now, prepared).0;
      && db.nextTransfer in r.transfers && r.transfers[db.nextTransfer].filesetId in r.filesets
      && r.filesets[r.transfers[db.nextTransfer].filesetId].kind == FS.Cached
  {
    FillsOutputIff(cfg, db, owner, plan, now, prepared);
    assert seen.Some? ==> seen.value.kind == FS.Cached;
  }
}
