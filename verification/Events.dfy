/** Daemon reports and what they do to the tables (src/stashd/services/events.py). */
module Events {
  import opened Options
  import opened Transfers
  import opened FairShare
  import opened Tables
  import opened Releases
  import FS = Filesets

  datatype EventKind = Started | Progress | Finished | FailedEvent

  datatype Event = Event(
    transferId: nat, sequence: int, kind: EventKind, daemon: string, at: int,
    bytesDone: int, filesDone: int, failure: Option<string>, message: string)

  function TargetState(kind: EventKind): State {
    match kind
    case Started => Running
    case Progress => Running
    case Finished => Succeeded
    case FailedEvent => Failed
  }

  /** The row once the event is taken in, before any retry. */
  function Progressed(t: Transfer, e: Event): Transfer {
    t.(lastSequence := e.sequence,
       state := TargetState(e.kind),
       startedAt := if e.kind == Started && t.startedAt.None? then Some(e.at) else t.startedAt,
       daemon := if e.kind == Started then Some(e.daemon) else t.daemon,
       bytesDone :=
         if e.bytesDone == 0 then t.bytesDone
         else if t.bytesTotal != 0 && t.bytesTotal < e.bytesDone then t.bytesTotal
         else e.bytesDone,
       filesDone := if e.filesDone != 0 then Some(e.filesDone) else t.filesDone,
       finishedAt := if e.kind in {Finished, FailedEvent} then Some(e.at) else t.finishedAt,
       errorCode := if e.kind == FailedEvent then e.failure else t.errorCode,
       errorDetail := if e.kind == FailedEvent then (if e.message != "" then Some(e.message) else None)
         else t.errorDetail)
  }

  predicate Retries(cfg: Cluster, attempt: nat, failure: Option<string>) {
    && failure.Some?
    && FailureNamed(failure.value).Some?
    && ShouldRetry(FailureNamed(failure.value).value, attempt, cfg.retryCount, cfg.retryOn)
  }

  /** One more attempt, queued as of its first submission and held until the given time. */
  function Requeued(t: Transfer, retryAfter: int): Transfer {
    t.(state := Submitted, attempt := t.attempt + 1, retryAfter := Some(retryAfter), finishedAt := None, taskId := None)
  }

  /** The state the fileset has to be able to move to for the event to be accepted. */
  function FilesetTarget(e: Event, retrying: bool): Option<FS.FilesetState> {
    if e.kind == Finished then Some(FS.Ready)
    else if e.kind == FailedEvent && !retrying then Some(FS.Failed)
    else None
  }

  function Reflected(f: Fileset, t: Transfer, e: Event, retrying: bool, now: int): Fileset
    requires e.kind == Finished && t.kind != Flush ==> t.bytesDone >= 0
  {
    var touched := f.(lastTransfer := Some(e.transferId));
    if e.kind == Finished then
      if t.kind == Flush then
        touched.(state := FS.Ready, lastFlushedAt := Some(e.at), lastFlushTarget := t.peerRef)
      else
        touched.(state := FS.Ready, warmFinishedAt := Some(e.at), usedBytes := t.bytesDone, usedAt := Some(now),
                 fileCount := if t.filesDone.Some? && t.filesDone.value != 0 then t.filesDone else f.fileCount)
    else if e.kind == FailedEvent && !retrying then touched.(state := FS.Failed)
    else touched
  }

  /** The table constraints checked when the row is written. */
  predicate Storable(t: Transfer, e: Event) {
    && t.bytesDone <= t.bytesTotal
    && (e.kind == Finished && t.kind != Flush ==> t.bytesDone >= 0)
  }

  /** A report of progress can be stored if and only if it brings nothing or the transfer was measured at more than
      nothing: a transfer whose source measured zero bytes can never report any. */
  lemma StorableIff(t: Transfer, e: Event)
    requires 0 <= t.bytesDone <= t.bytesTotal && e.bytesDone >= 0
    ensures Storable(Progressed(t, e), e) <==> e.bytesDone == 0 || t.bytesTotal > 0
  {
  }

  function Refunded(cfg: Cluster, accounts: map<string, Account>, t: Transfer, now: int): map<string, Account> {
    if t.startedAt.Some? then accounts
    else Charged(accounts, t.user, -PointsForBytes(t.kind, t.bytesTotal, cfg.pointsPerGib), now, cfg.decay)
  }

  /** The row an accepted event leaves, requeued if it is to be tried again. */
  function Settled(cfg: Cluster, t: Transfer, e: Event, retrying: bool, now: int): Transfer {
    if retrying then Requeued(Progressed(t, e), now + cfg.backoff) else Progressed(t, e)
  }

  /** What the first commit of an accepted event stores. */
  function Accepted(cfg: Cluster, db: Database, e: Event, now: int): Database
    requires e.transferId in db.transfers && db.transfers[e.transferId].filesetId in db.filesets
    requires Storable(Progressed(db.transfers[e.transferId], e), e)
  {
    var t := db.transfers[e.transferId];
    var retrying := e.kind == FailedEvent && Retries(cfg, t.attempt, e.failure);
    var settled := Settled(cfg, t, e, retrying, now);
    db.(transfers := db.transfers[e.transferId := settled],
        filesets := db.filesets[t.filesetId := Reflected(db.filesets[t.filesetId], settled, e, retrying, now)],
        accounts := if e.kind == FailedEvent && !retrying then Refunded(cfg, db.accounts, settled, now)
          else db.accounts)
  }

  /** Why an event is not taken in; None for one that is. */
  function Objection(cfg: Cluster, db: Database, e: Event): Option<Verdict> {
    if e.transferId !in db.transfers then Some(Raised(NotFound))
    else
      var t, target := db.transfers[e.transferId], TargetState(e.kind);
      var retrying := e.kind == FailedEvent && Retries(cfg, t.attempt, e.failure);
      if e.sequence <= t.lastSequence then Some(Ignored)
      else if IsBackwards(t.state, target) && t.state != target then Some(Ignored)
      else if t.state != target && !Legal(t.state, target) then Some(Raised(InvalidTransition))
      else if t.filesetId !in db.filesets then Some(Raised(NotFound))
      else if FilesetTarget(e, retrying).Some?
        && !FS.Legal(db.filesets[t.filesetId].state, FilesetTarget(e, retrying).value) then
        Some(Raised(InvalidTransition))
      else if !Storable(Progressed(t, e), e) then Some(Raised(ConstraintViolated))
      else None
  }

  /** apply_event. `store` is what the delete answers when the event makes a flush release its fileset;
      None stands for a caller that passes no store. */
  function ApplyEvent(cfg: Cluster, db: Database, e: Event, now: int,
                      store: Option<DeleteAnswer>): (Database, Verdict) {
    if Objection(cfg, db, e).Some? then (db, Objection(cfg, db, e).value)
    else
      var t := db.transfers[e.transferId];
      var accepted := Accepted(cfg, db, e, now);
      if store.Some? && t.kind == Flush && e.kind == Finished && t.releaseAfter
      then (PerformRelease(accepted, t.filesetId, now, store.value).0, Done)
      else (accepted, Done)
  }

  /** Some failures are never retried, whatever the config names and however many attempts are left: the first such
      event ends the transfer and leaves its fileset FAILED. */
  lemma NeverRetried(cfg: Cluster, db: Database, e: Event, now: int, store: Option<DeleteAnswer>)
    requires e.kind == FailedEvent && ApplyEvent(cfg, db, e, now, store).1 == Done
    requires e.failure in {Some("permission_denied"), Some("quota_exceeded"), Some("source_missing"), Some("cancelled")}
    ensures var after, t := ApplyEvent(cfg, db, e, now, store).0, db.transfers[e.transferId];
      && after.transfers[e.transferId].state == Failed && after.transfers[e.transferId].attempt == t.attempt
      && after.filesets[t.filesetId].state == FS.Failed
  {
    assert !Retries(cfg, db.transfers[e.transferId].attempt, e.failure);
  }

  /** A failure is tried again if and only if its class is one the config names, none of the four, and the
      attempts so far are within the retries: the transfer is back in the queue, its fileset is not
      touched but for the note of it. */
  lemma RetriedIff(cfg: Cluster, db: Database, e: Event, now: int, store: Option<DeleteAnswer>, failure: FailureClass)
    requires e.kind == FailedEvent && ApplyEvent(cfg, db, e, now, store).1 == Done
    requires e.failure.Some? && FailureNamed(e.failure.value) == Some(failure)
    ensures var after, t := ApplyEvent(cfg, db, e, now, store).0, db.transfers[e.transferId];
      var u := after.transfers[e.transferId];
      if failure in cfg.retryOn - {PermissionDenied, QuotaExceeded, SourceMissing, CancelledByUser}
        && t.attempt < cfg.retryCount + 1
      then u.state == Submitted && u.attempt == t.attempt + 1 && u.retryAfter == Some(now + cfg.backoff)
        && u.submittedAt == t.submittedAt
           && after.filesets[t.filesetId].state == db.filesets[t.filesetId].state
      else u.state == Failed && u.attempt == t.attempt
  {
  }

  /** A transfer that has ended stays as it ended, whatever is still reported of it, but for a failure reported anew. */
  lemma EndedStays(cfg: Cluster, db: Database, e: Event, now: int, store: Option<DeleteAnswer>)
    requires e.transferId in db.transfers && e.transferId < db.nextTransfer
      && IsTerminal(db.transfers[e.transferId].state)
    requires db.transfers[e.transferId].state == Cancelled || e.kind != FailedEvent
    ensures var t, after := db.transfers[e.transferId], ApplyEvent(cfg, db, e, now, store).0;
      after == db || (t.state == Succeeded && e.kind == Finished && after.transfers[e.transferId].state == Succeeded)
  {
  }
}
