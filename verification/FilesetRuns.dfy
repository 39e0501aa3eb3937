/** What a step does to the fileset table: it writes at most one row, and says which. */
module FilesetRuns {
  import opened Numbers
  import opened Options
  import opened Transfers
  import opened Allocation
  import opened Tables
  import opened Releases
  import opened Events
  import opened Cancels
  import opened Reconciling
  import opened Submissions
  import opened Reservations
  import opened Runs
  import FS = Filesets

  ghost predicate SameName(f: Fileset, g: Fileset) {
    g.name == f.name && g.owner == f.owner && g.storage == f.storage && g.kind == f.kind && g.source == f.source
  }

  /** A live fileset stops being live only by a delete its daemon has confirmed; a released one never comes back. */
  ghost predicate KeepsFileset(f: Fileset, g: Fileset, confirmed: bool) {
    && SameName(f, g)
    && (Live(g) ==> Live(f))
    && (Live(f) && !Live(g) ==> confirmed)
  }

  ghost predicate SameReservation(f: Fileset, g: Fileset, confirmed: bool) {
    KeepsFileset(f, g, confirmed) && g.allocatedBytes == f.allocatedBytes
  }

  ghost predicate WritesOnly(db: Database, db': Database, i: nat) {
    i in db'.filesets && db'.filesets == db.filesets[i := db'.filesets[i]]
  }

  /** The step leaves every reservation as it was, except that a confirmed delete frees one. */
  ghost predicate Preserves(db: Database, db': Database, confirmed: bool) {
    && db'.nextFileset == db.nextFileset
    && (|| db'.filesets == db.filesets
        || exists i ::
          i in db.filesets && WritesOnly(db, db', i) && SameReservation(db.filesets[i], db'.filesets[i], confirmed))
  }

  ghost predicate ConfirmsDelete(a: Action) {
    (a.DoRelease? && a.deleted == Deleted) || (a.DoEvent? && a.store == Some(Deleted))
  }

  lemma PreservesBy(db: Database, db': Database, i: nat, confirmed: bool)
    requires i in db.filesets && WritesOnly(db, db', i) && db'.nextFileset == db.nextFileset
    requires SameReservation(db.filesets[i], db'.filesets[i], confirmed)
    ensures Preserves(db, db', confirmed)
  {
  }

  lemma ReleasePreserves(db: Database, id: nat, now: int, answer: DeleteAnswer)
    requires id in db.filesets
    ensures Preserves(db, PerformRelease(db, id, now, answer).0, answer == Deleted)
    ensures PerformRelease(db, id, now, answer).0.filesets == db.filesets
      || WritesOnly(db, PerformRelease(db, id, now, answer).0, id)
    ensures PerformRelease(db, id, now, answer).1 == Done ==> !Live(PerformRelease(db, id, now, answer).0.filesets[id])
    ensures FS.Legal(db.filesets[id].state, FS.Releasing) && answer == Deleted
      ==> PerformRelease(db, id, now, answer).1 == Done
    ensures PerformRelease(db, id, now, answer).1 != Done ==>
              (Live(PerformRelease(db, id, now, answer).0.filesets[id]) <==> Live(db.filesets[id]))
  {
    var after := PerformRelease(db, id, now, answer).0;
    if FS.Legal(db.filesets[id].state, FS.Releasing) { PreservesBy(db, after, id, answer == Deleted); }
  }

  lemma AcceptedPreserves(cfg: Cluster, db: Database, e: Event, now: int)
    requires Objection(cfg, db, e).None?
    ensures var t, after := db.transfers[e.transferId], Accepted(cfg, db, e, now);
      && WritesOnly(db, after, t.filesetId)
      && after.nextFileset == db.nextFileset
      && SameReservation(db.filesets[t.filesetId], after.filesets[t.filesetId], false)
      && (Live(after.filesets[t.filesetId]) <==> Live(db.filesets[t.filesetId]))
      && (e.kind == Finished ==> after.filesets[t.filesetId].state == FS.Ready)
  {
  }

  lemma EventPreserves(cfg: Cluster, db: Database, e: Event, now: int, store: Option<DeleteAnswer>)
    ensures Preserves(db, ApplyEvent(cfg, db, e, now, store).0, store == Some(Deleted))
  {
    if Objection(cfg, db, e).None? {
      var i := db.transfers[e.transferId].filesetId;
      var accepted := Accepted(cfg, db, e, now);
      AcceptedPreserves(cfg, db, e, now);
      if store.Some? { ReleasePreserves(accepted, i, now, store.value); }
      PreservesBy(db, ApplyEvent(cfg, db, e, now, store).0, i, store == Some(Deleted));
    }
  }

  lemma ReconcilePreserves(cfg: Cluster, db: Database, id: nat, task: TaskAnswer, now: int)
    ensures Preserves(db, ReconcileOne(cfg, db, id, task, now).0, false)
  {
    if id in db.transfers && db.transfers[id].taskId.Some? {
      var e := TaskEvent(cfg, id, db.transfers[id], task, now);
      if e.Some? { EventPreserves(cfg, db, e.value, now, None); }
    }
  }

  lemma CancelPreserves(cfg: Cluster, db: Database, id: nat, now: int)
    ensures Preserves(db, Cancel(cfg, db, id, now).0, false)
  {
    var after := Cancel(cfg, db, id, now).0;
    if after != db && after.filesets != db.filesets {
      PreservesBy(db, after, db.transfers[id].filesetId, false);
    }
  }

  lemma FlushPreserves(cfg: Cluster, db: Database, owner: string, flush: FlushPlan, now: int, charged: bool)
    ensures Preserves(db, SubmitFlush(cfg, db, owner, flush, now, charged).0, false)
  {
    var after := SubmitFlush(cfg, db, owner, flush, now, charged).0;
    if after.filesets != db.filesets {
      PreservesBy(db, after, LiveFileset(db.filesets, owner, flush.storage, flush.name).value, false);
    }
  }

  lemma MeasurePreserves(db: Database, id: nat, used: nat, fileCount: int, now: int)
    ensures Preserves(db, Measure(db, id, used, fileCount, now).0, false)
  {
    var after := Measure(db, id, used, fileCount, now).0;
    if after.filesets != db.filesets { PreservesBy(db, after, id, false); }
  }

  /** Failing, retrying, cancelling, flushing, scheduling, pruning, measuring, draining and a refused delete
      free nothing and reserve nothing. */
  lemma StepPreserves(cfg: Cluster, db: Database, a: Action)
    requires !a.DoCreate? && !a.DoWarm? && !a.DoResize?
    ensures Preserves(db, Step(cfg, db, a).0, ConfirmsDelete(a))
  {
    match a
    case DoFlush(owner, flush, now, charged) => FlushPreserves(cfg, db, owner, flush, now, charged);
    case DoEvent(event, now, store) => EventPreserves(cfg, db, event, now, store);
    case DoReconcile(id, task, now) => ReconcilePreserves(cfg, db, id, task, now);
    case DoCancel(id, now) => CancelPreserves(cfg, db, id, now);
    case DoRelease(owner, storage, name, discard, now, deleted) =>
      var found := LiveFileset(db.filesets, owner, storage, name);
      if found.Some? { ReleasePreserves(db, found.value, now, deleted); }
    case DoMeasure(id, used, fileCount, now) => MeasurePreserves(db, id, used, fileCount, now);
    case _ =>
  }

  // ---- The three calls that reserve ----

  /** A fileset that was not there, under a name no live one has, or one whose reservation is rewritten. */
  ghost predicate Reserves(db: Database, db': Database, i: nat) {
    && WritesOnly(db, db', i)
    && Live(db'.filesets[i])
    && (if i in db.filesets
        then db'.nextFileset == db.nextFileset && Live(db.filesets[i]) && SameName(db.filesets[i], db'.filesets[i])
        else && i == db.nextFileset && db'.nextFileset == db.nextFileset + 1
             && LiveIds(db.filesets, db'.filesets[i].owner, db'.filesets[i].storage, db'.filesets[i].name) == {})
  }

  ghost function CreatedId(cfg: Cluster, db: Database, a: Action): Option<nat>
    requires a.DoCreate?
  {
    if Step(cfg, db, a).1 in {Done, Raised(Interrupted)} then Some(db.nextFileset) else None
  }

  lemma CreateUnreserved(cfg: Cluster, db: Database, a: Action)
    requires a.DoCreate? && Linked(db) && CreatedId(cfg, db, a).None?
    ensures Step(cfg, db, a).0.filesets == db.filesets && Step(cfg, db, a).0.nextFileset >= db.nextFileset
  {
    var reserved := db.filesets[db.nextFileset :=
                                NewFileset(a.name, a.owner, a.storage, FS.Output, a.size, None, a.now)];
    assert reserved - {db.nextFileset} == db.filesets;
  }

  lemma CreateAdmitted(cfg: Cluster, db: Database, a: Action)
    requires a.DoCreate? && CreateObjection(cfg, db, a.owner, a.storage, a.name, a.size).None?
    ensures IsCache(cfg, a.storage) && LiveIds(db.filesets, a.owner, a.storage, a.name) == {}
    ensures Admit(a.size, AdmissionState(cfg, db, a.owner, a.storage)).None?
  {
  }

  lemma CreateWrites(cfg: Cluster, db: Database, a: Action)
    requires a.DoCreate? && CreatedId(cfg, db, a).Some?
    ensures CreateObjection(cfg, db, a.owner, a.storage, a.name, a.size).None?
    ensures var db', i := Step(cfg, db, a).0, db.nextFileset;
      && WritesOnly(db, db', i) && db'.nextFileset == i + 1
      && var f := db'.filesets[i];
         Live(f) && f.owner == a.owner && f.storage == a.storage && f.name == a.name && f.allocatedBytes == a.size
  {
    var db', i := Step(cfg, db, a).0, db.nextFileset;
    assert i in db'.filesets;
    assert db'.filesets == db.filesets[i := db'.filesets[i]];
  }

  lemma CreateReserves(cfg: Cluster, db: Database, a: Action)
    requires a.DoCreate? && Linked(db)
    ensures CreatedId(cfg, db, a).None? ==> Step(cfg, db, a).0.filesets == db.filesets
    ensures CreatedId(cfg, db, a).Some? ==>
      var db', i := Step(cfg, db, a).0, db.nextFileset;
      && Reserves(db, db', i)
      && db'.filesets[i].owner == a.owner && db'.filesets[i].storage == a.storage
      && db'.filesets[i].allocatedBytes == a.size
      && IsCache(cfg, a.storage)
      && Admit(a.size, AdmissionState(cfg, db, a.owner, a.storage)).None?
    ensures Step(cfg, db, a).0.nextFileset >= db.nextFileset
  {
    if CreatedId(cfg, db, a).None? {
      CreateUnreserved(cfg, db, a);
    } else {
      CreateWrites(cfg, db, a);
      CreateAdmitted(cfg, db, a);
    }
  }

  ghost function WarmFound(db: Database, a: Action): Option<nat>
    requires a.DoWarm?
  {
    LiveFileset(db.filesets, a.owner, a.plan.target, a.plan.name)
  }

  ghost function WarmId(db: Database, a: Action): nat
    requires a.DoWarm?
  {
    if WarmFound(db, a).Some? then WarmFound(db, a).value else db.nextFileset
  }

  ghost function WarmHad(db: Database, a: Action): int
    requires a.DoWarm?
  {
    if WarmFound(db, a).Some? then db.filesets[WarmFound(db, a).value].allocatedBytes else 0
  }

  ghost predicate WarmAdmitted(cfg: Cluster, db: Database, a: Action)
    requires a.DoWarm?
  {
    WarmObjection(cfg, db, a.owner, a.plan).None?
  }

  /** What a warm adds was admitted, on a storage the config has. */
  lemma GrowthAdmitted(cfg: Cluster, db: Database, a: Action)
    requires a.DoWarm? && WarmAdmitted(cfg, db, a) && a.plan.reservation > WarmHad(db, a)
    ensures a.plan.target in cfg.storages
    ensures Admit(a.plan.reservation - WarmHad(db, a), AdmissionState(cfg, db, a.owner, a.plan.target)).None?
  {
  }

  lemma WarmRefused(cfg: Cluster, db: Database, a: Action)
    requires a.DoWarm? && !WarmAdmitted(cfg, db, a)
    ensures Step(cfg, db, a).0 == db
  {
  }

  ghost function WarmFirst(db: Database, a: Action): Database
    requires a.DoWarm?
  {
    WarmCommitted(db, WarmFound(db, a), a.owner, a.plan, a.now)
  }

  lemma PreparedTouches(cfg: Cluster, first: Database, id: nat, owner: string, bytesTotal: nat, now: int,
                        prepared: Option<string>)
    requires id in first.filesets
    ensures var db' := Prepared(cfg, first, id, owner, bytesTotal, now, prepared).0;
      && db'.transfers == first.transfers && db'.nextTransfer == first.nextTransfer
      && db'.nextFileset == first.nextFileset
      && (|| db'.filesets == first.filesets
          || db'.filesets == first.filesets[id :=
                                            first.filesets[id].(path := prepared.GetOr(""), state := FS.Populating)])
  {
  }

  /** What an admitted warm does after its first commit touches only the path and state of its fileset. */
  lemma WarmPrepares(cfg: Cluster, db: Database, a: Action)
    requires a.DoWarm? && WarmAdmitted(cfg, db, a)
    ensures var first, db', i := WarmFirst(db, a), Step(cfg, db, a).0, WarmId(db, a);
      && db'.transfers == first.transfers && db'.nextTransfer == first.nextTransfer
      && db'.nextFileset == first.nextFileset
      && i in first.filesets
      && (|| db'.filesets == first.filesets
          || db'.filesets == first.filesets[i :=
                                            first.filesets[i].(path := a.prepared.GetOr(""), state := FS.Populating)])
  {
    PreparedTouches(cfg, WarmFirst(db, a), WarmId(db, a), a.owner, a.plan.bytesTotal, a.now, a.prepared);
  }

  /** An admitted warm reserves and queues, whatever becomes of preparing its destination. */
  lemma WarmReserves(cfg: Cluster, db: Database, a: Action)
    requires a.DoWarm? && Linked(db) && WarmAdmitted(cfg, db, a)
    ensures Reserves(db, Step(cfg, db, a).0, WarmId(db, a))
    ensures var f := Step(cfg, db, a).0.filesets[WarmId(db, a)];
      && f.owner == a.owner && f.storage == a.plan.target
      && f.allocatedBytes == (if WarmFound(db, a).Some? then Max(WarmHad(db, a), a.plan.reservation)
                              else a.plan.reservation)
  {
    var first, db', i := WarmFirst(db, a), Step(cfg, db, a).0, WarmId(db, a);
    WarmPrepares(cfg, db, a);
    assert first.filesets == db.filesets[i := first.filesets[i]];
    assert db'.filesets == db.filesets[i := db'.filesets[i]];
  }

  lemma WarmQueues(cfg: Cluster, db: Database, a: Action)
    requires a.DoWarm? && WarmAdmitted(cfg, db, a)
    ensures var db' := Step(cfg, db, a).0;
      && db'.nextTransfer == db.nextTransfer + 1
      && db.nextTransfer in db'.transfers
      && db'.transfers == db.transfers[db.nextTransfer := db'.transfers[db.nextTransfer]]
      && db'.transfers[db.nextTransfer].filesetId == WarmId(db, a)
      && db'.transfers[db.nextTransfer].bytesTotal == a.plan.bytesTotal
      && db'.transfers[db.nextTransfer].kind == Warm
  {
    WarmPrepares(cfg, db, a);
  }

  lemma ResizeReserves(cfg: Cluster, db: Database, a: Action)
    requires a.DoResize?
    ensures var db', v := Step(cfg, db, a).0, Step(cfg, db, a).1;
      if v != Done then db' == db
      else
        && a.id in db.filesets && Reserves(db, db', a.id)
        && db'.filesets[a.id].allocatedBytes == a.size >= 1
        && (a.size > db.filesets[a.id].allocatedBytes ==>
             && db.filesets[a.id].storage in cfg.storages
             && Admit(a.size - db.filesets[a.id].allocatedBytes,
                      AdmissionState(cfg, db, db.filesets[a.id].owner, db.filesets[a.id].storage)).None?)
        && db'.transfers == db.transfers && db'.nextTransfer == db.nextTransfer
  {
  }

  // ---- The links between the tables hold after every step ----

  lemma PreservedLinks(db: Database, db': Database, confirmed: bool)
    requires Linked(db) && Preserves(db, db', confirmed)
    ensures db'.filesets.Keys == db.filesets.Keys && UniqueNames(db'.filesets)
    ensures forall i :: i in db'.filesets ==> i < db'.nextFileset
  {
  }

  lemma ReservedLinks(db: Database, db': Database, i: nat)
    requires Linked(db) && Reserves(db, db', i)
    ensures db.filesets.Keys <= db'.filesets.Keys && UniqueNames(db'.filesets)
    ensures forall j :: j in db'.filesets ==> j < db'.nextFileset
  {
    if i !in db.filesets {
      var f := db'.filesets[i];
      assert forall j :: j in db.filesets ==> j !in LiveIds(db.filesets, f.owner, f.storage, f.name);
    }
  }

  lemma FilesetLinks(cfg: Cluster, db: Database, a: Action)
    requires Linked(db)
    ensures var db' := Step(cfg, db, a).0;
      && db.filesets.Keys <= db'.filesets.Keys && UniqueNames(db'.filesets)
      && (forall i :: i in db'.filesets ==> i < db'.nextFileset)
  {
    var db' := Step(cfg, db, a).0;
    if a.DoCreate? {
      CreateReserves(cfg, db, a);
      if CreatedId(cfg, db, a).Some? { ReservedLinks(db, db', db.nextFileset); }
    } else if a.DoWarm? {
      if WarmAdmitted(cfg, db, a) {
        WarmReserves(cfg, db, a);
        ReservedLinks(db, db', WarmId(db, a));
      } else {
        WarmRefused(cfg, db, a);
      }
    } else if a.DoResize? {
      ResizeReserves(cfg, db, a);
      if db' != db { ReservedLinks(db, db', a.id); }
    } else {
      StepPreserves(cfg, db, a);
      PreservedLinks(db, db', ConfirmsDelete(a));
    }
  }

  lemma AcceptedKeepsLinks(cfg: Cluster, db: Database, e: Event, now: int)
    requires Linked(db) && Objection(cfg, db, e).None?
    ensures Linked(Accepted(cfg, db, e, now))
  {
    var i, after := db.transfers[e.transferId].filesetId, Accepted(cfg, db, e, now);
    AcceptedPreserves(cfg, db, e, now);
    PreservesBy(db, after, i, false);
    PreservedLinks(db, after, false);
  }

  lemma ReleaseKeepsLinks(db: Database, id: nat, now: int, answer: DeleteAnswer)
    requires Linked(db) && id in db.filesets
    ensures Linked(PerformRelease(db, id, now, answer).0)
  {
    ReleasePreserves(db, id, now, answer);
    PreservedLinks(db, PerformRelease(db, id, now, answer).0, answer == Deleted);
    ReleaseAdds(db, id, now, answer);
  }

  lemma EventKeepsLinks(cfg: Cluster, db: Database, e: Event, now: int, store: Option<DeleteAnswer>)
    requires Linked(db)
    ensures Linked(ApplyEvent(cfg, db, e, now, store).0)
  {
    if Objection(cfg, db, e).None? {
      AcceptedKeepsLinks(cfg, db, e, now);
      if store.Some? {
        ReleaseKeepsLinks(Accepted(cfg, db, e, now), db.transfers[e.transferId].filesetId, now, store.value);
      }
    }
  }

  lemma ReconcileKeepsLinks(cfg: Cluster, db: Database, id: nat, answer: TaskAnswer, now: int)
    requires Linked(db)
    ensures Linked(ReconcileOne(cfg, db, id, answer, now).0)
  {
    if id in db.transfers && db.transfers[id].taskId.Some? {
      var e := TaskEvent(cfg, id, db.transfers[id], answer, now);
      if e.Some? { EventKeepsLinks(cfg, db, e.value, now, None); }
    }
  }

  lemma StepKeepsSound(cfg: Cluster, db: Database, a: Action)
    requires Sound(cfg, db)
    ensures Sound(cfg, Step(cfg, db, a).0)
  {
    var db' := Step(cfg, db, a).0;
    StepMovesTable(cfg, db, a);
    MovesKeepRowsOk(cfg, db, db', a.DoSchedule?);
    FilesetLinks(cfg, db, a);
    forall i | i in db'.transfers ensures i < db'.nextTransfer && db'.transfers[i].filesetId in db'.filesets {
      if i in db.transfers {
        assert RowMoves(cfg, db.transfers[i], db'.transfers[i], a.DoSchedule?);
      }
    }
  }

  /** The tables are sound after any run from the empty database. */
  lemma {:induction false} RunsAreSound(cfg: Cluster, db: Database, run: seq<Action>)
    requires Sound(cfg, db)
    ensures Sound(cfg, After(cfg, db, run))
  {
    if run != [] {
      RunsAreSound(cfg, db, run[..|run| - 1]);
      StepKeepsSound(cfg, After(cfg, db, run[..|run| - 1]), run[|run| - 1]);
    }
  }

  /** Names are given once. */
  lemma StepKeepsNames(cfg: Cluster, db: Database, a: Action, i: nat)
    requires Linked(db) && i in db.filesets
    ensures i in Step(cfg, db, a).0.filesets && SameName(db.filesets[i], Step(cfg, db, a).0.filesets[i])
  {
    if a.DoCreate? {
      CreateReserves(cfg, db, a);
    } else if a.DoWarm? {
      if WarmAdmitted(cfg, db, a) { WarmReserves(cfg, db, a); } else { WarmRefused(cfg, db, a); }
    } else if a.DoResize? {
      ResizeReserves(cfg, db, a);
    } else {
      StepPreserves(cfg, db, a);
    }
  }

  /** A fileset keeps its id, its name and what it was made for through any run. */
  lemma {:induction false} NamesLast(cfg: Cluster, db: Database, run: seq<Action>, i: nat)
    requires Sound(cfg, db) && i in db.filesets
    ensures i in After(cfg, db, run).filesets && SameName(db.filesets[i], After(cfg, db, run).filesets[i])
  {
    if run != [] {
      var n := |run| - 1;
      NamesLast(cfg, db, run[..n], i);
      RunsAreSound(cfg, db, run[..n]);
      StepKeepsNames(cfg, After(cfg, db, run[..n]), run[n], i);
    }
  }

  lemma EmptyIsSound(cfg: Cluster)
    ensures Sound(cfg, EMPTY)
  {
  }
}
