/** The controller's services over its tables, each as it runs and each doing what its specification says
    (src/stashd/services, src/stashd/scheduler/loop.py).

    A field assignment is a commit: what a service works on before that is local, and a service that raises leaves
    it behind. Rows a query returns in no particular order are taken up in any order.
  */
module Controllers {
  import opened Numbers
  import opened Options
  import opened Transfers
  import opened FairShare
  import opened Scheduling
  import opened Allocation
  import opened Tables
  import opened Runs
  import Sums
  import Priority
  import References
  import Releases
  import Events
  import Cancels
  import Reconciling
  import Submissions
  import Reservations
  import SchedulerLoop
  import Retention
  import Reports
  import FilesetRuns
  import FS = Filesets

  class Controller {
    const cfg: Cluster
    var transfers: map<nat, Transfer>
    var filesets: map<nat, Fileset>
    var accounts: map<string, Account>
    var stats: map<BucketKey, Bucket>
    var drained: set<string>
    var nextTransfer: nat
    var nextFileset: nat

    function Db(): Database
      reads this
    {
      Database(transfers, filesets, accounts, stats, drained, nextTransfer, nextFileset)
    }

    ghost predicate Valid()
      reads this
    {
      Sound(cfg, Db())
    }

    constructor (cfg: Cluster)
      ensures Valid() && this.cfg == cfg && Db() == EMPTY
    {
      this.cfg := cfg;
      transfers, filesets, accounts, stats, drained := map[], map[], map[], map[], {};
      nextTransfer, nextFileset := 1, 1;
      FilesetRuns.EmptyIsSound(cfg);
    }

    // ---- Queries (src/stashd/services/filesets.py, src/stashd/services/allocations.py) ----

    /** live_fileset, over the rows in any order. */
    method FindLive(owner: string, storage: string, name: string) returns (found: Option<nat>)
      requires UniqueNames(filesets)
      ensures found == LiveFileset(filesets, owner, storage, name)
    {
      found := None;
      var rest := filesets.Keys;
      while rest != {}
        invariant rest <= filesets.Keys
        invariant found.None? ==> LiveIds(filesets, owner, storage, name) <= rest
        invariant found.Some? ==> found.value in LiveIds(filesets, owner, storage, name)
      {
        var i :| i in rest;
        if Named(filesets[i], owner, storage, name) { found := Some(i); }
        rest := rest - {i};
      }
      if found.Some? { TheLiveFileset(filesets, owner, storage, name, found.value); }
    }

    /** SUM(allocated_bytes) or COUNT(*) over the live filesets of a slice. */
    method SumOf(slice: Slice) returns (sum: int)
      ensures sum == Held(cfg, filesets, slice)
    {
      sum := 0;
      var rest := filesets.Keys;
      ghost var weights: map<nat, int> := Weights(cfg, filesets, slice);
      assert weights - rest == map[];
      while rest != {}
        invariant rest <= filesets.Keys && sum == Sums.Sum(weights - rest)
      {
        var i :| i in rest;
        Sums.SumTaking(weights, rest, i);
        sum := sum + Weight(cfg, filesets[i], slice);
        rest := rest - {i};
      }
      assert weights - {} == weights;
    }

    /** usage_per_storage: grouped by storage, the sums are those of each storage, and over the caches they come to
        what the user holds on all of them. */
    method UsagePerStorage(user: string) returns (usage: map<string, int>)
      ensures forall s :: Sums.At(usage, s) == Held(cfg, filesets, OfUserOn(user, s))
      ensures Sums.Sum(CacheShare(cfg, usage)) == Held(cfg, filesets, OfUserOnCaches(user))
    {
      usage := map[];
      var rest := filesets.Keys;
      NoUsageGathered(cfg, filesets, user);
      while rest != {}
        invariant rest <= filesets.Keys && UsageGathered(cfg, filesets, user, usage, rest)
      {
        var i :| i in rest;
        OneUsageGathered(cfg, filesets, user, usage, rest, i);
        var f := filesets[i];
        if f.owner == user && Live(f) { usage := usage[f.storage := Sums.At(usage, f.storage) + f.allocatedBytes]; }
        rest := rest - {i};
      }
      AllUsageGathered(cfg, filesets, user, usage);
    }

    /** admission_state, sum by sum. */
    method AdmissionStateOf(user: string, storage: string) returns (s: AllocationState)
      requires storage in cfg.storages
      ensures s == AdmissionState(cfg, Db(), user, storage)
    {
      var usage := UsagePerStorage(user);
      var onCaches := 0;
      var rest := usage.Keys;
      ghost var share: map<string, int> := CacheShare(cfg, usage);
      assert share - rest == map[];
      while rest != {}
        invariant rest <= usage.Keys && onCaches == Sums.Sum(share - rest)
      {
        var key :| key in rest;
        Sums.SumTaking(share, rest, key);
        if IsCache(cfg, key) { onCaches := onCaches + usage[key]; }
        rest := rest - {key};
      }
      assert share - {} == share;
      var storageAllocated := SumOf(AllOn(storage));
      var count := SumOf(CountOf(user));
      var offending := exists i ::
        i in filesets && filesets[i].owner == user && filesets[i].overAllocation && Live(filesets[i]);
      s := AllocationState(
        Sums.At(usage, storage), StorageLimit(cfg, user, storage), onCaches, TotalLimit(cfg, user),
        storageAllocated, cfg.storages[storage].capacity, cfg.storages[storage].fillLimit,
        count, cfg.maxFilesets, offending, storage in drained);
    }

    /** charge: one account is brought up to `now` and moved, and no other is touched. */
    method Charge(user: string, points: real, now: int)
      modifies `accounts
      ensures accounts == Charged(old(accounts), user, points, now, cfg.decay)
      ensures accounts.Keys == old(accounts).Keys + {user} && accounts[user].points >= 0.0
        && accounts[user].decayedAt >= now
      ensures forall u :: u in old(accounts) && u != user ==> accounts[u] == old(accounts)[u]
    {
      if user !in accounts { accounts := accounts[user := Account(0.0, now)]; }
      accounts := accounts[user := WithPoints(accounts[user], points, now, cfg.decay)];
      assert accounts == Charged(old(accounts), user, points, now, cfg.decay);
    }

    /** Nothing is paid back for a transfer whose start was reported. */
    method Refund(t: Transfer, now: int)
      modifies `accounts
      ensures accounts == Events.Refunded(cfg, old(accounts), t, now)
    {
      if t.startedAt.Some? { return; }
      Charge(t.user, -PointsForBytes(t.kind, t.bytesTotal, cfg.pointsPerGib), now);
    }

    // ---- Releases (src/stashd/services/transfers_release.py) ----

    /** perform_release: a first commit, the daemon's answer, and a second commit if there was one. */
    method PerformRelease(filesetId: nat, now: int, answer: Releases.DeleteAnswer) returns (v: Verdict)
      requires filesetId in filesets
      modifies this
      ensures (Db(), v) == Releases.PerformRelease(old(Db()), filesetId, now, answer)
    {
      var f := filesets[filesetId];
      var t := NewTransfer(Release, f.owner, filesetId, None, Route(f.storage, f.storage), 0, false, now);
      assert Legal(t.state, Assigned);
      t := t.(state := Assigned);
      assert Legal(t.state, Running);
      t := t.(state := Running, startedAt := Some(now));
      if !FS.Legal(f.state, FS.Releasing) { return Raised(InvalidTransition); }
      f := f.(state := FS.Releasing);
      var id := nextTransfer;
      transfers, filesets, nextTransfer := transfers[id := t], filesets[filesetId := f], id + 1;

      match answer {
        case NoAnswer => return Raised(Interrupted);
        case DeleteRefused(code, detail) =>
          assert FS.Legal(f.state, FS.Failed) && Legal(t.state, Failed);
          f := f.(state := FS.Failed);
          t := t.(state := Failed, finishedAt := Some(now), errorCode := Some(code), errorDetail := detail);
          v := Raised(DaemonRefused);
        case Deleted =>
          assert FS.Legal(f.state, FS.Released) && Legal(t.state, Succeeded);
          f := f.(state := FS.Released, releasedAt := Some(now), lastTransfer := Some(id));
          t := t.(state := Succeeded, finishedAt := Some(now));
          v := Done;
      }
      transfers, filesets := transfers[id := t], filesets[filesetId := f];
      assert transfers == old(transfers)[id := t] && filesets == old(filesets)[filesetId := f];
    }

    method ReleaseFileset(owner: string, storage: string, name: string, discard: bool, now: int,
                          answer: Releases.DeleteAnswer) returns (v: Verdict)
      requires UniqueNames(filesets)
      modifies this
      ensures (Db(), v) == Releases.ReleaseFileset(old(Db()), owner, storage, name, discard, now, answer)
    {
      var found := FindLive(owner, storage, name);
      if found.None? { return Raised(NotFound); }
      if filesets[found.value].kind == FS.Output && !discard { return Raised(FlushTargetRequired); }
      v := PerformRelease(found.value, now, answer);
    }

    // ---- Events (src/stashd/services/events.py) ----

    /** _apply_to_fileset, for a move the fileset can make. */
    method ApplyToFileset(t: Transfer, e: Events.Event, retrying: bool, now: int) returns (f: Fileset)
      requires t.filesetId in filesets
      requires e.kind == Events.Finished && t.kind != Flush ==> t.bytesDone >= 0
      ensures f == Events.Reflected(filesets[t.filesetId], t, e, retrying, now)
    {
      f := filesets[t.filesetId].(lastTransfer := Some(e.transferId));
      var flushing := t.kind == Flush;
      if e.kind == Events.Finished {
        f := f.(state := FS.Ready);
        if flushing {
          f := f.(lastFlushedAt := Some(e.at), lastFlushTarget := t.peerRef);
        } else {
          f := f.(warmFinishedAt := Some(e.at), usedBytes := t.bytesDone, usedAt := Some(now));
          if t.filesDone.Some? && t.filesDone.value != 0 { f := f.(fileCount := t.filesDone); }
        }
      } else if e.kind == Events.FailedEvent && !retrying {
        f := f.(state := FS.Failed);
      }
    }

    /** The transfer row taken forward by an event, field by field; None for a move it cannot make. */
    method TakeIn(t: Transfer, e: Events.Event) returns (taken: Option<Transfer>)
      ensures taken.Some? <==> t.state == Events.TargetState(e.kind) || Legal(t.state, Events.TargetState(e.kind))
      ensures taken.Some? ==> taken.value == Events.Progressed(t, e)
    {
      var target := Events.TargetState(e.kind);
      var row := t.(lastSequence := e.sequence);
      if row.state != target {
        if !Legal(row.state, target) { return None; }
        row := row.(state := target);
      }
      if e.kind == Events.Started {
        if row.startedAt.None? { row := row.(startedAt := Some(e.at)); }
        row := row.(daemon := Some(e.daemon));
      }
      if e.bytesDone != 0 {
        var most := if row.bytesTotal != 0 then row.bytesTotal else e.bytesDone;
        row := row.(bytesDone := if most < e.bytesDone then most else e.bytesDone);
      }
      if e.filesDone != 0 { row := row.(filesDone := Some(e.filesDone)); }
      if e.kind in {Events.Finished, Events.FailedEvent} { row := row.(finishedAt := Some(e.at)); }
      if e.kind == Events.FailedEvent {
        row := row.(errorCode := e.failure, errorDetail := if e.message != "" then Some(e.message) else None);
      }
      taken := Some(row);
    }

    /** Why an event is not taken in, check by check: the last three are raised on the way to a
        commit that never comes. */
    method Check(e: Events.Event) returns (objection: Option<Verdict>)
      requires Linked(Db())
      ensures objection == Events.Objection(cfg, Db(), e)
    {
      if e.transferId !in transfers { return Some(Raised(NotFound)); }
      var t, target := transfers[e.transferId], Events.TargetState(e.kind);
      if e.sequence <= t.lastSequence { return Some(Ignored); }
      if IsBackwards(t.state, target) && t.state != target { return Some(Ignored); }
      var taken := TakeIn(t, e);
      if taken.None? { return Some(Raised(InvalidTransition)); }
      var retrying := e.kind == Events.FailedEvent && Events.Retries(cfg, t.attempt, e.failure);
      var move := Events.FilesetTarget(e, retrying);
      if move.Some? && !FS.Legal(filesets[t.filesetId].state, move.value) { return Some(Raised(InvalidTransition)); }
      objection := if Events.Storable(taken.value, e) then None else Some(Raised(ConstraintViolated));
    }

    /** _requeue: the next attempt of the same job, offered again exactly when its backoff is over. */
    method Requeue(t: Transfer, now: int) returns (requeued: Transfer)
      requires t.state == Failed
      ensures requeued == Events.Requeued(t, now + cfg.backoff)
      ensures SameJob(t, requeued) && Legal(t.state, requeued.state) && Rank(requeued.state) == 0
      ensures requeued.attempt == t.attempt + 1 && requeued.lastSequence == t.lastSequence
      ensures !SchedulerLoop.Offered(requeued, now + cfg.backoff - 1)
        && SchedulerLoop.Offered(requeued, now + cfg.backoff)
    {
      assert Legal(t.state, Submitted);
      requeued := t.(state := Submitted);
      requeued := requeued.(attempt := requeued.attempt + 1);
      requeued := requeued.(retryAfter := Some(now + cfg.backoff), finishedAt := None, taskId := None);
    }

    /** The row an accepted event leaves. */
    method Settle(e: Events.Event, retrying: bool, now: int) returns (t: Transfer)
      requires e.transferId in transfers && Events.Objection(cfg, Db(), e).None?
      requires retrying ==> e.kind == Events.FailedEvent
      ensures t == Events.Settled(cfg, transfers[e.transferId], e, retrying, now)
    {
      var taken := TakeIn(transfers[e.transferId], e);
      t := taken.value;
      if retrying { t := Requeue(t, now); }
    }

    /** What an accepted event changes, up to its commit. */
    method TakeUp(e: Events.Event, now: int)
      requires Linked(Db()) && Events.Objection(cfg, Db(), e).None?
      modifies this
      ensures Db() == Events.Accepted(cfg, old(Db()), e, now)
    {
      var retrying := e.kind == Events.FailedEvent && Events.Retries(cfg, transfers[e.transferId].attempt, e.failure);
      var t := Settle(e, retrying, now);
      var f := ApplyToFileset(t, e, retrying, now);
      if e.kind == Events.FailedEvent && !retrying { Refund(t, now); }
      transfers, filesets := transfers[e.transferId := t], filesets[t.filesetId := f];
    }

    method ApplyEvent(e: Events.Event, now: int, store: Option<Releases.DeleteAnswer>) returns (v: Verdict)
      requires Linked(Db())
      modifies this
      ensures (Db(), v) == Events.ApplyEvent(cfg, old(Db()), e, now, store)
    {
      var objection := Check(e);
      if objection.Some? { return objection.value; }
      TakeUp(e, now);
      var t := transfers[e.transferId];
      if store.Some? && t.kind == Flush && e.kind == Events.Finished && t.releaseAfter {
        // However the release ends, the event has been applied.
        var _ := PerformRelease(t.filesetId, now, store.value);
      }
      v := Done;
    }

    // ---- Cancelling (src/stashd/services/cancel.py) ----

    method CancelTransfer(id: nat, now: int) returns (v: Verdict)
      modifies this
      ensures (Db(), v) == Cancels.Cancel(cfg, old(Db()), id, now)
    {
      if id !in transfers { return Raised(NotFound); }
      var t := transfers[id];
      if !CanCancel(t.state) { return Raised(NotCancellable); }
      assert Legal(t.state, Cancelled);
      t := t.(state := Cancelled);
      t := t.(finishedAt := Some(now), errorCode := Some("cancelled"));
      if t.filesetId in filesets && Live(filesets[t.filesetId]) {
        var f := filesets[t.filesetId];
        Cancels.CancelNeverBlocked(transfers[id].state, f.state);
        if f.state != FS.Failed { f := f.(state := FS.Failed); }
        filesets := filesets[t.filesetId := f.(lastTransfer := Some(id))];
      }
      Refund(t, now);
      transfers := transfers[id := t];
      v := Done;
    }

    // ---- Reconciling (src/stashd/services/reconcile.py) ----

    /** The report the daemon's answer amounts to; none while there is nothing to conclude from it. */
    method Conclude(id: nat, t: Transfer, answer: Reconciling.TaskAnswer, now: int) returns (e: Option<Events.Event>)
      ensures e == Reconciling.TaskEvent(cfg, id, t, answer, now)
    {
      var daemon := if t.daemon.Some? then t.daemon.value else "";
      match answer
      case Unreachable(reason) =>
        var since := if t.startedAt.Some? then t.startedAt.value else t.submittedAt;
        if now - since < cfg.unreachableAfter { return None; }
        e := Some(Events.Event(id, t.lastSequence + 1, Events.FailedEvent, daemon, now, 0, 0,
                               Some("daemon_unreachable"), reason));
      case Found(state, bytesDone, filesDone, failure, message) =>
        if state == Reconciling.TaskUnfinished { return None; }
        var kind := if state == Reconciling.TaskSucceeded then Events.Finished else Events.FailedEvent;
        e := Some(Events.Event(id, t.lastSequence + 1, kind, daemon, now, bytesDone, filesDone, failure, message));
    }

    method ReconcileOne(id: nat, answer: Reconciling.TaskAnswer, now: int) returns (v: Verdict)
      requires Linked(Db())
      modifies this
      ensures (Db(), v) == Reconciling.ReconcileOne(cfg, old(Db()), id, answer, now)
      ensures Linked(Db())
    {
      FilesetRuns.ReconcileKeepsLinks(cfg, Db(), id, answer, now);
      if id !in transfers { return Raised(NotFound); }
      var t := transfers[id];
      if t.taskId.None? {
        if !Legal(t.state, Submitted) { return Raised(InvalidTransition); }
        transfers := transfers[id := t.(state := Submitted)];
        return Done;
      }
      var e := Conclude(id, t, answer, now);
      if e.None? { return Ignored; }
      v := ApplyEvent(e.value, now, None);
      if !v.Raised? { v := Done; }
    }

    method InFlightRows(tasks: map<nat, Reconciling.TaskAnswer>) returns (rows: seq<(nat, Reconciling.TaskAnswer)>)
      ensures rows == Reconciling.InFlightRows(transfers, tasks, nextTransfer)
    {
      rows := [];
      for i := 0 to nextTransfer
        invariant rows == Reconciling.InFlightRows(transfers, tasks, i)
      {
        if i in transfers && InFlight(transfers[i].state) {
          rows := rows + [(i, if i in tasks then tasks[i] else Reconciling.Unreachable(""))];
        }
      }
    }

    /** One row of a pass that began at `start`. */
    method TakeRow(ghost start: Database, rows: seq<(nat, Reconciling.TaskAnswer)>, k: nat, now: int, changed: nat)
        returns (v: Verdict, sofar: nat)
      requires Linked(Db()) && k < |rows|
      requires Reconciling.Reconcile(cfg, start, rows[..k], now) == (Db(), Done, changed)
      modifies this
      ensures Linked(Db())
      ensures Reconciling.Reconcile(cfg, start, rows[..k + 1], now) == (Db(), v, sofar)
    {
      ghost var before := Db();
      v := ReconcileOne(rows[k].0, rows[k].1, now);
      Reconciling.RowTaken(cfg, start, rows, k, now, before, changed, Db(), v);
      sofar := if v == Done then changed + 1 else changed;
      if !v.Raised? { v := Done; }
    }

    /** reconcile: the rows in flight as it begins, each brought up to date, until one raises. */
    method Reconcile(tasks: map<nat, Reconciling.TaskAnswer>, now: int) returns (v: Verdict, changed: nat)
      requires Linked(Db())
      modifies this
      ensures Linked(Db())
      ensures Reconciling.Reconcile(cfg, old(Db()), Reconciling.InFlightRows(old(transfers), tasks, old(nextTransfer)),
                                    now) == (Db(), v, changed)
    {
      var rows := InFlightRows(tasks);
      v, changed := Done, 0;
      var k := 0;
      while k < |rows| && !v.Raised?
        invariant k <= |rows| && Linked(Db())
        invariant Reconciling.Reconcile(cfg, old(Db()), rows[..k], now) == (Db(), v, changed)
        invariant v == Done || v.Raised?
      {
        v, changed := TakeRow(old(Db()), rows, k, now, changed);
        k := k + 1;
      }
      if v.Raised? { Reconciling.RaisingEndsThePass(cfg, old(Db()), rows, k, now); }
      assert k == |rows| ==> rows[..k] == rows;
    }

    // ---- Submissions (src/stashd/services/warm.py, src/stashd/services/flush.py) ----

    method CheckQueueLength(user: string) returns (tooMany: bool)
      ensures tooMany <==> |Submissions.Queued(transfers, user)| >= cfg.queuedPerUser
    {
      var queued := 0;
      var rest := transfers.Keys;
      ghost var all := Submissions.Queued(transfers, user);
      while rest != {}
        invariant rest <= transfers.Keys && queued == |all - rest|
      {
        var i :| i in rest;
        Sums.CountTaking(all, rest, i);
        if transfers[i].user == user && transfers[i].state in {Submitted, Assigned} { queued := queued + 1; }
        rest := rest - {i};
      }
      assert all - {} == all;
      tooMany := queued >= cfg.queuedPerUser;
    }

    /** What admission says to `extra` more bytes; nothing is asked for none. */
    method Admission(owner: string, storage: string, extra: int) returns (refusal: Option<Error>)
      ensures refusal == Submissions.WarmAdmission(cfg, Db(), owner, storage, extra)
    {
      if extra <= 0 { return None; }
      if storage !in cfg.storages { return Some(NotFound); }
      var state := AdmissionStateOf(owner, storage);
      var broken := Admit(extra, state);
      if broken.None? { return None; }
      refusal := Some(Refused(broken.value));
    }

    /** The reservation and the queued transfer, in one commit; `id` is the fileset that is filled. */
    method Reserve(found: Option<nat>, owner: string, plan: Submissions.WarmPlan, now: int) returns (id: nat)
      requires found.Some? ==> found.value in filesets
      modifies this
      ensures Db() == Submissions.WarmCommitted(old(Db()), found, owner, plan, now)
      ensures id == (if found.Some? then found.value else old(nextFileset))
    {
      id := nextFileset;
      var f := NewFileset(plan.name, owner, plan.target, FS.Cached, plan.reservation,
                          Some((plan.source, plan.sourcePath)), now);
      if found.Some? {
        id, f := found.value, filesets[found.value];
      } else {
        nextFileset := nextFileset + 1;
      }
      f := f.(allocatedBytes := Max(f.allocatedBytes, plan.reservation));
      var t := NewTransfer(Warm, owner, id, Some(plan.source + ":" + plan.sourcePath), Route(plan.source, plan.target),
                           plan.bytesTotal, false, now);
      f := f.(warmStartedAt := Some(now));
      transfers, filesets, nextTransfer := transfers[nextTransfer := t], filesets[id := f], nextTransfer + 1;
    }

    /** _prepare_destination and the charge: what follows the first commit. */
    method Prepare(id: nat, owner: string, bytesTotal: nat, now: int, prepared: Option<string>) returns (v: Verdict)
      requires id in filesets
      modifies this
      ensures (Db(), v) == Submissions.Prepared(cfg, old(Db()), id, owner, bytesTotal, now, prepared)
    {
      if prepared.None? { return Raised(DaemonRefused); }
      var f := filesets[id].(path := prepared.value);
      if f.state == FS.Creating {
        assert FS.Legal(FS.Creating, FS.Ready);
        f := f.(state := FS.Ready);
      }
      if !FS.Legal(f.state, FS.Populating) { return Raised(InvalidTransition); }
      f := f.(state := FS.Populating);
      Charge(owner, PointsForBytes(Warm, bytesTotal, cfg.pointsPerGib), now);
      filesets := filesets[id := f];
      v := Done;
    }

    method CheckWarm(owner: string, plan: Submissions.WarmPlan, found: Option<nat>) returns (objection: Option<Error>)
      requires found == LiveFileset(filesets, owner, plan.target, plan.name)
      ensures objection == Submissions.WarmObjection(cfg, Db(), owner, plan)
    {
      var tooMany := CheckQueueLength(owner);
      if tooMany { return Some(TooManyQueued); }
      var already := if found.Some? then filesets[found.value].allocatedBytes else 0;
      objection := Admission(owner, plan.target, plan.reservation - already);
    }

    method SubmitWarm(owner: string, plan: Submissions.WarmPlan, now: int, prepared: Option<string>)
        returns (v: Verdict)
      requires UniqueNames(filesets)
      modifies this
      ensures (Db(), v) == Submissions.SubmitWarm(cfg, old(Db()), owner, plan, now, prepared)
    {
      var found := FindLive(owner, plan.target, plan.name);
      var objection := CheckWarm(owner, plan, found);
      if objection.Some? { return Raised(objection.value); }
      var id := Reserve(found, owner, plan, now);
      v := Prepare(id, owner, plan.bytesTotal, now, prepared);
    }

    /** The queued transfer and the fileset taken up, in one commit. */
    method QueueFlush(id: nat, owner: string, flush: Submissions.FlushPlan, now: int)
      requires id in filesets
      modifies this
      ensures Db() == Submissions.FlushCommitted(old(Db()), id, owner, flush, now)
    {
      var f := filesets[id];
      var bytesTotal := if flush.measured != 0 then flush.measured else f.usedBytes;
      var route := Route(flush.storage, flush.target);
      var t := NewTransfer(Flush, owner, id, Some(flush.target + ":" + flush.targetPath), route, bytesTotal,
                           !flush.keep, now);
      f := f.(state := FS.Flushing);
      transfers, filesets, nextTransfer := transfers[nextTransfer := t], filesets[id := f], nextTransfer + 1;
    }

    method SubmitFlush(owner: string, flush: Submissions.FlushPlan, now: int, charged: bool) returns (v: Verdict)
      requires UniqueNames(filesets)
      modifies this
      ensures (Db(), v) == Submissions.SubmitFlush(cfg, old(Db()), owner, flush, now, charged)
    {
      var found := FindLive(owner, flush.storage, flush.name);
      if found.None? { return Raised(NotFound); }
      var tooMany := CheckQueueLength(owner);
      if tooMany { return Raised(TooManyQueued); }
      var f := filesets[found.value];
      if !FS.Legal(f.state, FS.Flushing) { return Raised(InvalidTransition); }
      QueueFlush(found.value, owner, flush, now);
      if !charged { return Raised(Interrupted); }
      Charge(owner, PointsForBytes(Flush, Submissions.FlushBytes(f, flush), cfg.pointsPerGib), now);
      v := Done;
    }

    // ---- Filesets (src/stashd/services/filesets.py) ----

    method CheckCreate(owner: string, storage: string, name: string, size: int) returns (objection: Option<Error>)
      requires UniqueNames(filesets)
      ensures objection == Reservations.CreateObjection(cfg, Db(), owner, storage, name, size)
    {
      if storage !in cfg.storages { return Some(NotFound); }
      if !cfg.storages[storage].cache { return Some(NotACacheStorage); }
      if References.ValidateFilesetName(name).Err? { return Some(InvalidName); }
      var found := FindLive(owner, storage, name);
      if found.Some? { return Some(FilesetExists); }
      var state := AdmissionStateOf(owner, storage);
      var broken := Admit(size, state);
      objection := if broken.Some? then Some(Refused(broken.value)) else None;
    }

    /** The second half of a create, once its row is committed. */
    method CreateDirectory(id: nat, answer: Reservations.CreateAnswer) returns (v: Verdict)
      requires id in filesets && filesets[id].state == FS.Creating
      modifies `filesets
      ensures filesets == Reservations.Answered(old(filesets), id, answer)
      ensures v == Reservations.VerdictOf(answer)
    {
      match answer {
        case CreateUnanswered => v := Raised(Interrupted);
        case CreateRefused =>
          // A refused create is undone.
          filesets := filesets - {id};
          v := Raised(DaemonRefused);
        case Created(path) =>
          assert FS.Legal(filesets[id].state, FS.Ready);
          filesets := filesets[id := filesets[id].(path := path, state := FS.Ready)];
          v := Done;
      }
    }

    /** create_output_fileset, from the checks to the daemon's answer. */
    method CreateOutputFileset(owner: string, storage: string, name: string, size: int, now: int,
                               answer: Reservations.CreateAnswer) returns (v: Verdict)
      requires Linked(Db())
      modifies this
      ensures (Db(), v) == Reservations.CreateOutput(cfg, old(Db()), owner, storage, name, size, now, answer)
    {
      var objection := CheckCreate(owner, storage, name, size);
      if objection.Some? { return Raised(objection.value); }
      var id := nextFileset;
      filesets, nextFileset := filesets[id := NewFileset(name, owner, storage, FS.Output, size, None, now)], id + 1;
      v := CreateDirectory(id, answer);
    }

    method ResizeFileset(id: nat, size: int, force: bool, quotaSet: bool) returns (v: Verdict)
      modifies this
      ensures (Db(), v) == Reservations.Resize(cfg, old(Db()), id, size, force, quotaSet)
    {
      if id !in filesets { return Raised(NotFound); }
      var f := filesets[id];
      if !Live(f) { return Raised(Refused(Conflict)); }
      var delta := CheckResize(f.allocatedBytes, f.usedBytes, size, force);
      if delta.Err? { return Raised(Refused(delta.error)); }
      var refusal := Admission(f.owner, f.storage, delta.value);
      if refusal.Some? { return Raised(refusal.value); }
      f := f.(allocatedBytes := size);
      if !quotaSet { return Raised(DaemonRefused); }
      filesets := filesets[id := f];
      v := Done;
    }

    /** One row of reconcile_storage (src/stashd/services/usage.py). */
    method Measure(id: nat, used: nat, fileCount: int, now: int) returns (v: Verdict)
      modifies this
      ensures (Db(), v) == Reservations.Measure(old(Db()), id, used, fileCount, now)
    {
      if id !in filesets || filesets[id].state in {FS.Released, FS.Creating} { return Ignored; }
      var f := filesets[id];
      f := f.(usedBytes := used, fileCount := Some(fileCount), usedAt := Some(now));
      filesets := filesets[id := f.(overAllocation := used > f.allocatedBytes)];
      v := Done;
    }

    method SetDrained(storage: string, draining: bool) returns (v: Verdict)
      modifies this
      ensures (Db(), v) == Reservations.SetDrained(cfg, old(Db()), storage, draining)
    {
      if storage !in cfg.storages { return Raised(NotFound); }
      drained := if draining then drained + {storage} else drained - {storage};
      v := Done;
    }

    // ---- The scheduler (src/stashd/scheduler/loop.py) ----

    method WaitingRows(now: int) returns (waiting: seq<QueuedTransfer>)
      ensures waiting == SchedulerLoop.Waiting(transfers, now, nextTransfer)
    {
      waiting := [];
      for i := 0 to nextTransfer
        invariant waiting == SchedulerLoop.Waiting(transfers, now, i)
      {
        if i in transfers && SchedulerLoop.Offered(transfers[i], now) {
          waiting := waiting + [SchedulerLoop.Queue(i, transfers[i])];
        }
      }
    }

    /** _load: the rows in flight counted into one set of counters. */
    method CountLoad() returns (load: Load)
      ensures load == SchedulerLoop.LoadOf(transfers, nextTransfer)
    {
      load := IDLE;
      for i := 0 to nextTransfer
        invariant load == SchedulerLoop.LoadOf(transfers, i)
      {
        if i in transfers && InFlight(transfers[i].state) {
          var q := SchedulerLoop.Queue(i, transfers[i]);
          load := load.(total := load.total + 1);
          load := load.(perUser := load.perUser[q.user := Get(load.perUser, q.user) + 1]);
          var perStorage := CountStorages(load.perStorage, q.Storages());
          load := load.(perStorage := perStorage);
          if q.kind.MovesData() {
            load := load.(perRoute := load.perRoute[q.route := Get(load.perRoute, q.route) + 1]);
          }
        }
      }
    }

    /** The loop over the plan: hand over what the daemons take. */
    method StartPlan(plan: seq<Dispatch>, answers: map<nat, SchedulerLoop.Handover>) returns (started: seq<Dispatch>)
      modifies `transfers
      ensures transfers == SchedulerLoop.StartAll(old(transfers), plan, answers)
      ensures started == SchedulerLoop.StartedOf(old(transfers), plan, answers)
    {
      started := [];
      for k := 0 to |plan|
        invariant transfers == SchedulerLoop.StartAll(old(transfers), plan[..k], answers)
        invariant started == SchedulerLoop.StartedOf(old(transfers), plan[..k], answers)
      {
        var d := plan[k];
        assert plan[..k + 1][..k] == plan[..k];
        // Releases are passed over, and so is whatever no daemon takes.
        if SchedulerLoop.Starts(transfers, d, answers) {
          var t := transfers[d.transferId].(state := Assigned);
          t := t.(daemon := Some(answers[d.transferId].daemon), taskId := Some(answers[d.transferId].taskId));
          transfers := transfers[d.transferId := t.(bwlimit := d.bwlimit)];
          started := started + [d];
        }
      }
      assert plan[..|plan|] == plan;
    }

    /** schedule_once: queue, counters, plan, starts. */
    method ScheduleOnce(now: int, answers: map<nat, SchedulerLoop.Handover>) returns (started: seq<Dispatch>)
      modifies `transfers
      ensures Db() == SchedulerLoop.ScheduleOnce(cfg, old(Db()), now, answers)
      ensures started == SchedulerLoop.StartedOf(old(transfers),
                                                 SchedulerLoop.Planned(cfg, old(Db()), now).plan, answers)
    {
      var waiting := WaitingRows(now);
      var owed := AccountsFor(accounts, SchedulerLoop.UsersOf(waiting), now, cfg.decay);
      var ordered := Priority.OrderQueue(waiting, owed, cfg.decay, now);
      var load := CountLoad();
      var plan := PlanDispatch(ordered, load, Terms(cfg.concurrency, cfg.bandwidth, drained));
      started := StartPlan(plan, answers);
    }

    // ---- Retention (src/stashd/services/retention.py) ----

    method RollUp(t: Transfer, storage: string)
      modifies `stats
      ensures stats == Retention.RollUp(old(stats), t, storage)
      ensures stats.Keys == old(stats).Keys + {Retention.KeyFor(t, storage)}
      ensures forall k :: k in old(stats) && k != Retention.KeyFor(t, storage) ==> stats[k] == old(stats)[k]
      ensures var b, was := stats[Retention.KeyFor(t, storage)],
        Retention.BucketAt(old(stats), Retention.KeyFor(t, storage));
        && b.transfers == was.transfers + 1 && b.bytes == was.bytes + t.bytesDone
        && was.succeeded <= b.succeeded <= was.succeeded + 1
        && (t.startedAt.None? ==> b.waitSeconds == was.waitSeconds && b.runSeconds == was.runSeconds)
    {
      var key := Retention.KeyFor(t, storage);
      var bucket := if key in stats then stats[key] else Bucket(0, 0, 0, 0, 0);
      bucket := bucket.(transfers := bucket.transfers + 1);
      if t.state == Succeeded { bucket := bucket.(succeeded := bucket.succeeded + 1); }
      bucket := bucket.(bytes := bucket.bytes + t.bytesDone);
      if t.startedAt.Some? {
        bucket := bucket.(waitSeconds :=
                          bucket.waitSeconds + Retention.WholeSeconds(t.startedAt.value - t.submittedAt));
        if t.finishedAt.Some? {
          bucket := bucket.(runSeconds :=
                            bucket.runSeconds + Retention.WholeSeconds(t.finishedAt.value - t.startedAt.value));
        }
      }
      stats := stats[key := bucket];
    }

    /** The loop over the expired rows. */
    method RollUpExpired(before: int) returns (gone: set<nat>)
      requires Linked(Db())
      modifies `stats
      ensures stats == Retention.RolledUp(old(Db()), before, nextTransfer)
      ensures gone == Retention.ExpiredIds(old(Db()), before)
    {
      gone := {};
      ghost var start := Db();
      for i := 0 to nextTransfer
        invariant stats == Retention.RolledUp(start, before, i)
        invariant forall j: nat :: j in gone <==> j < i && Retention.Expired(start, j, before)
      {
        if i in transfers && IsTerminal(transfers[i].state) && transfers[i].submittedAt < before
          && transfers[i].filesetId in filesets {
          RollUp(transfers[i], filesets[transfers[i].filesetId].storage);
          gone := gone + {i};
        }
      }
      assert gone == Retention.ExpiredIds(start, before);
    }

    /** prune: every expired row goes into its bucket, then all of them go. */
    method Prune(now: int) returns (pruned: nat)
      requires Linked(Db())
      modifies this
      ensures Db() == Retention.Prune(cfg, old(Db()), now)
      ensures pruned == |Retention.ExpiredIds(old(Db()), now - cfg.retention)|
    {
      var gone := RollUpExpired(now - cfg.retention);
      transfers := transfers - gone;
      pruned := |gone|;
    }

    // ---- The usage report (src/stashd/services/reports.py) ----

    /** The rows of the window, each added to the totals of its key, and their waits. */
    method AddRows(q: Reports.Query) returns (totals: map<string, Reports.Totals>, waits: map<string, seq<int>>)
      ensures Reports.RowsGathered(cfg, Db(), q, totals, {})
      ensures Reports.WaitsGathered(cfg, Db(), q, waits, {})
    {
      totals, waits := map[], map[];
      var rest := transfers.Keys;
      Reports.NoRowsGathered(cfg, Db(), q);
      Reports.NoWaitsGathered(cfg, Db(), q);
      while rest != {}
        invariant rest <= transfers.Keys && Reports.RowsGathered(cfg, Db(), q, totals, rest)
          && Reports.WaitsGathered(cfg, Db(), q, waits, rest)
      {
        var i :| i in rest;
        totals := CountRow(q, i, totals, rest);
        waits := NoteWait(q, i, waits, rest);
        rest := rest - {i};
      }
    }

    method CountRow(q: Reports.Query, i: nat, totals: map<string, Reports.Totals>, ghost rest: set<nat>)
        returns (more: map<string, Reports.Totals>)
      requires i in transfers && i in rest && Reports.RowsGathered(cfg, Db(), q, totals, rest)
      ensures Reports.RowsGathered(cfg, Db(), q, more, rest - {i})
    {
      var t := transfers[i];
      more := totals;
      if IsTerminal(t.state) && t.filesetId in filesets && Reports.InWindow(t.submittedAt, q.since, q.until) {
        more := AddTransfer(totals, Reports.Key(cfg, q.grouping, t, filesets[t.filesetId].storage), t);
      }
      Reports.OneRowGathered(cfg, Db(), q, totals, rest, i, more);
    }

    method NoteWait(q: Reports.Query, i: nat, waits: map<string, seq<int>>, ghost rest: set<nat>)
        returns (more: map<string, seq<int>>)
      requires i in transfers && i in rest && Reports.WaitsGathered(cfg, Db(), q, waits, rest)
      ensures Reports.WaitsGathered(cfg, Db(), q, more, rest - {i})
    {
      var t := transfers[i];
      more := waits;
      if IsTerminal(t.state) && t.filesetId in filesets && Reports.InWindow(t.submittedAt, q.since, q.until)
        && t.startedAt.Some? {
        var key := Reports.Key(cfg, q.grouping, t, filesets[t.filesetId].storage);
        more := waits[key := [t.startedAt.value - t.submittedAt] + Reports.WaitsAt(waits, key)];
      }
      Reports.OneWaitGathered(cfg, Db(), q, waits, rest, i, more);
    }

    /** _add_rolled_up: what pruning kept, on top of that. */
    method AddRolledUp(q: Reports.Query, rows: map<string, Reports.Totals>)
        returns (totals: map<string, Reports.Totals>)
      ensures Reports.BucketsGathered(cfg, stats, q, rows, totals, {})
    {
      totals := rows;
      var rest := stats.Keys;
      Reports.NoBucketsGathered(cfg, stats, q, rows);
      while rest != {}
        invariant rest <= stats.Keys && Reports.BucketsGathered(cfg, stats, q, rows, totals, rest)
      {
        var k :| k in rest;
        var more := totals;
        if Reports.DayInWindow(k.day, q.since, q.until) {
          more := AddBucket(totals, Reports.RolledUpKey(cfg, q.grouping, k), stats[k]);
        }
        Reports.OneBucketGathered(cfg, stats, q, rows, totals, rest, k, more);
        totals, rest := more, rest - {k};
      }
    }

    /** usage_report: a line exactly for the keys that some row or bucket of the window has, and each
        line says what they come to. */
    method UsageReport(q: Reports.Query) returns (report: map<string, Reports.UsageGroup>)
      ensures forall key :: key in report <==> Reports.Shown(cfg, Db(), q.For(key))
      ensures forall key :: key in report ==> Reports.Says(cfg, Db(), q.For(key), report[key])
    {
      var rows, waits := AddRows(q);
      var totals := AddRolledUp(q, rows);
      Reports.AllGathered(cfg, Db(), q, rows, totals);
      report := map key | key in totals :: Reports.GroupOf(totals[key], Reports.WaitsAt(waits, key));
      forall key | key in totals ensures Reports.Says(cfg, Db(), q.For(key), report[key]) {
        Reports.GroupSays(cfg, Db(), q, totals, waits, key);
      }
    }

    /** _bucket, and one row added to it. */
    method AddTransfer(totals: map<string, Reports.Totals>, key: string, t: Transfer)
        returns (more: map<string, Reports.Totals>)
      ensures more.Keys == totals.Keys + {key}
      ensures forall k, c ::
        Reports.Cell(more, k, c) == Reports.Cell(totals, k, c) + (if k == key then Reports.OfTransfer(t, c) else 0)
    {
      var row := if key in totals then totals[key] else Reports.Totals(0, 0, 0, 0, 0, 0);
      row := row.(bytes := row.bytes + t.bytesDone);
      row := row.(transfers := row.transfers + 1);
      if t.state == Succeeded { row := row.(succeeded := row.succeeded + 1); }
      if t.startedAt.Some? {
        row := row.(waited := row.waited + t.startedAt.value - t.submittedAt);
        row := row.(countedWaits := row.countedWaits + 1);
        if t.finishedAt.Some? { row := row.(running := row.running + t.finishedAt.value - t.startedAt.value); }
      }
      more := totals[key := row];
    }

    method AddBucket(totals: map<string, Reports.Totals>, key: string, b: Bucket)
        returns (more: map<string, Reports.Totals>)
      ensures more.Keys == totals.Keys + {key}
      ensures forall k, c ::
        Reports.Cell(more, k, c) == Reports.Cell(totals, k, c) + (if k == key then Reports.OfBucket(b, c) else 0)
    {
      var row := if key in totals then totals[key] else Reports.Totals(0, 0, 0, 0, 0, 0);
      row := row.(bytes := row.bytes + b.bytes, transfers := row.transfers + b.transfers,
                  succeeded := row.succeeded + b.succeeded);
      row := row.(running := row.running + b.runSeconds * Retention.SECOND,
                  waited := row.waited + b.waitSeconds * Retention.SECOND);
      more := totals[key := row.(countedWaits := row.countedWaits + b.transfers)];
    }

    // ---- Every call ----

    /** Whatever is asked of it, the controller takes the step of the model and keeps its tables sound, so what holds
        of every run of steps holds of every sequence of calls. */
    method Perform(a: Action) returns (v: Verdict)
      requires Valid()
      modifies this
      ensures (Db(), v) == Step(cfg, old(Db()), a)
      ensures Valid()
    {
      FilesetRuns.StepKeepsSound(cfg, Db(), a);
      if FilesetCall(a) { v := PerformOnFileset(a); } else { v := PerformOnTransfer(a); }
    }

    predicate FilesetCall(a: Action) {
      a.DoCreate? || a.DoWarm? || a.DoFlush? || a.DoRelease? || a.DoResize? || a.DoMeasure? || a.DoDrain?
    }

    method PerformOnFileset(a: Action) returns (v: Verdict)
      requires Linked(Db()) && FilesetCall(a)
      modifies this
      ensures (Db(), v) == Step(cfg, old(Db()), a)
    {
      match a
      case DoCreate(owner, storage, name, size, now, created) =>
        v := CreateOutputFileset(owner, storage, name, size, now, created);
      case DoWarm(owner, plan, now, prepared) => v := SubmitWarm(owner, plan, now, prepared);
      case DoFlush(owner, flush, now, charged) => v := SubmitFlush(owner, flush, now, charged);
      case DoRelease(owner, storage, name, discard, now, deleted) =>
        v := ReleaseFileset(owner, storage, name, discard, now, deleted);
      case DoResize(id, size, force, quotaSet) => v := ResizeFileset(id, size, force, quotaSet);
      case DoMeasure(id, used, fileCount, now) => v := Measure(id, used, fileCount, now);
      case DoDrain(storage, draining) => v := SetDrained(storage, draining);
    }

    method PerformOnTransfer(a: Action) returns (v: Verdict)
      requires Linked(Db()) && !FilesetCall(a)
      modifies this
      ensures (Db(), v) == Step(cfg, old(Db()), a)
    {
      v := Done;
      match a
      case DoSchedule(now, answers) => var _ := ScheduleOnce(now, answers);
      case DoEvent(event, now, store) => v := ApplyEvent(event, now, store);
      case DoReconcile(id, task, now) =>
        if id in transfers && InFlight(transfers[id].state) { v := ReconcileOne(id, task, now); } else { v := Ignored; }
      case DoCancel(id, now) => v := CancelTransfer(id, now);
      case DoPrune(now) => var _ := Prune(now);
    }
  }
}
