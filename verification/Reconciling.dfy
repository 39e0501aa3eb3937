/** Checking the rows in flight against the daemons (src/stashd/services/reconcile.py). */
module Reconciling {
  import opened Options
  import opened Transfers
  import opened Tables
  import opened Events

  datatype TaskState = TaskSucceeded | TaskFailed | TaskCancelled | TaskUnfinished

  /** What the daemon that was running the work says about it. */
  datatype TaskAnswer =
    | Found(state: TaskState, bytesDone: int, filesDone: int, failure: Option<string>, message: string)
    | Unreachable(reason: string)

  function Synthesised(id: nat, t: Transfer, kind: EventKind, now: int, bytesDone: int, filesDone: int,
                       failure: Option<string>, message: string): Event {
    Event(id, t.lastSequence + 1, kind, t.daemon.GetOr(""), now, bytesDone, filesDone, failure, message)
  }

  /** The event the daemon's answer stands for; None while there is nothing to adopt. Silence counts as
      failure once it has lasted long enough. */
  function TaskEvent(cfg: Cluster, id: nat, t: Transfer, answer: TaskAnswer, now: int): Option<Event> {
    match answer
    case Unreachable(reason) =>
      if now - t.startedAt.GetOr(t.submittedAt) < cfg.unreachableAfter then None
      else Some(Synthesised(id, t, FailedEvent, now, 0, 0, Some("daemon_unreachable"), reason))
    case Found(state, bytesDone, filesDone, failure, message) =>
      match state
      case TaskUnfinished => None
      case TaskSucceeded => Some(Synthesised(id, t, Finished, now, bytesDone, filesDone, failure, message))
      case _ => Some(Synthesised(id, t, FailedEvent, now, bytesDone, filesDone, failure, message))
  }

  /** _reconcile_one. Done stands for True, Ignored for False. */
  function ReconcileOne(cfg: Cluster, db: Database, id: nat, answer: TaskAnswer, now: int): (Database, Verdict) {
    if id !in db.transfers then (db, Raised(NotFound))
    else
      var t := db.transfers[id];
      if t.taskId.None? then
        if Legal(t.state, Submitted) then (db.(transfers := db.transfers[id := t.(state := Submitted)]), Done)
        else (db, Raised(InvalidTransition))
      else
        match TaskEvent(cfg, id, t, answer, now)
        case None => (db, Ignored)
        case Some(e) => Adopted(cfg, db, e, now)
  }

  /** The event is applied without a store, and counted as a change whether or not it was taken in. */
  function Adopted(cfg: Cluster, db: Database, e: Event, now: int): (Database, Verdict) {
    var r := ApplyEvent(cfg, db, e, now, None);
    if r.1.Raised? then r else (r.0, Done)
  }

  /** reconcile: row by row until one raises, which ends the pass; the rows before it stay committed. */
  function Reconcile(cfg: Cluster, db: Database, rows: seq<(nat, TaskAnswer)>, now: int): (Database, Verdict, nat) {
    if rows == [] then (db, Done, 0)
    else
      var before := Reconcile(cfg, db, rows[..|rows| - 1], now);
      if before.1.Raised? then before
      else
        var last := rows[|rows| - 1];
        var r := ReconcileOne(cfg, before.0, last.0, last.1, now);
        (r.0, if r.1.Raised? then r.1 else Done, before.2 + (if r.1 == Done then 1 else 0))
  }

  /** The rows a pass takes up, among those with an id below `n`; a daemon that says nothing cannot be reached. */
  function InFlightRows(transfers: map<nat, Transfer>, tasks: map<nat, TaskAnswer>, n: nat): seq<(nat, TaskAnswer)> {
    if n == 0 then []
    else
      var before := InFlightRows(transfers, tasks, n - 1);
      if n - 1 in transfers && InFlight(transfers[n - 1].state)
      then before + [(n - 1, if n - 1 in tasks then tasks[n - 1] else Unreachable(""))]
      else before
  }

  lemma OneRowMore(cfg: Cluster, db: Database, rows: seq<(nat, TaskAnswer)>, k: nat, now: int)
    requires k < |rows| && !Reconcile(cfg, db, rows[..k], now).1.Raised?
    ensures var before := Reconcile(cfg, db, rows[..k], now);
      var r := ReconcileOne(cfg, before.0, rows[k].0, rows[k].1, now);
      Reconcile(cfg, db, rows[..k + 1], now)
        == (r.0, if r.1.Raised? then r.1 else Done, before.2 + (if r.1 == Done then 1 else 0))
  {
    assert rows[..k + 1][..k] == rows[..k];
  }

  lemma RowTaken(cfg: Cluster, db: Database, rows: seq<(nat, TaskAnswer)>, k: nat, now: int, before: Database,
                 changed: nat, after: Database, one: Verdict)
    requires k < |rows| && Reconcile(cfg, db, rows[..k], now) == (before, Done, changed)
    requires ReconcileOne(cfg, before, rows[k].0, rows[k].1, now) == (after, one)
    ensures Reconcile(cfg, db, rows[..k + 1], now)
      == (after, if one.Raised? then one else Done, if one == Done then changed + 1 else changed)
  {
    OneRowMore(cfg, db, rows, k, now);
  }

  /** Once a row has raised, the rows after it are not looked at. */
  lemma {:induction false} RaisingEndsThePass(cfg: Cluster, db: Database, rows: seq<(nat, TaskAnswer)>,
                                              k: nat, now: int)
    requires k <= |rows| && Reconcile(cfg, db, rows[..k], now).1.Raised?
    ensures Reconcile(cfg, db, rows, now) == Reconcile(cfg, db, rows[..k], now)
  {
    if k == |rows| {
      assert rows[..k] == rows;
    } else {
      assert rows[..|rows| - 1][..k] == rows[..k];
      RaisingEndsThePass(cfg, db, rows[..|rows| - 1], k, now);
    }
  }
}
