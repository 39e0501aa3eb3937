/** A pass of the scheduler as a function of the tables (src/stashd/scheduler/loop.py). */
module SchedulerLoop {
  import opened Options
  import opened Transfers
  import opened Scheduling
  import opened Priority
  import opened Tables

  /** A daemon that takes a transfer says who it is and what it calls the work. */
  datatype Handover = Handover(daemon: string, taskId: string)

  function Queue(id: nat, t: Transfer): QueuedTransfer {
    QueuedTransfer(id, t.user, t.kind, t.route, t.bytesTotal, t.submittedAt)
  }

  /** The row is queued and no backoff holds it. */
  predicate Offered(t: Transfer, now: int) {
    t.state == Submitted && (t.retryAfter.None? || t.retryAfter.value <= now)
  }

  /** _waiting, among the rows with an id below `n`, in id order. */
  function Waiting(transfers: map<nat, Transfer>, now: int, n: nat): seq<QueuedTransfer> {
    if n == 0 then []
    else
      var before := Waiting(transfers, now, n - 1);
      if n - 1 in transfers && Offered(transfers[n - 1], now) then before + [Queue(n - 1, transfers[n - 1])] else before
  }

  /** _load, among the rows with an id below `n`. */
  function LoadOf(transfers: map<nat, Transfer>, n: nat): Load {
    if n == 0 then IDLE
    else
      var before := LoadOf(transfers, n - 1);
      if n - 1 in transfers && InFlight(transfers[n - 1].state) then Occupy(before, Queue(n - 1, transfers[n - 1]))
      else before
  }

  function UsersOf(queue: seq<QueuedTransfer>): set<string> {
    set q | q in queue :: q.user
  }

  function Ordered(cfg: Cluster, db: Database, now: int): seq<QueuedTransfer> {
    var waiting := Waiting(db.transfers, now, db.nextTransfer);
    OrderQueue(waiting, AccountsFor(db.accounts, UsersOf(waiting), now, cfg.decay), cfg.decay, now)
  }

  function TermsOf(cfg: Cluster, db: Database): Terms {
    Terms(cfg.concurrency, cfg.bandwidth, db.drained)
  }

  function Planned(cfg: Cluster, db: Database, now: int): Pass {
    Walk(Ordered(cfg, db, now), LoadOf(db.transfers, db.nextTransfer), TermsOf(cfg, db))
  }

  function HandedOver(t: Transfer, h: Handover, bwlimit: Option<int>): Transfer {
    t.(state := Assigned, daemon := Some(h.daemon), taskId := Some(h.taskId), bwlimit := bwlimit)
  }

  /** Carrying out a plan: a release is passed over and a refusal leaves the transfer queued. */
  function StartAll(transfers: map<nat, Transfer>, plan: seq<Dispatch>,
                    answers: map<nat, Handover>): map<nat, Transfer> {
    if plan == [] then transfers
    else
      var before := StartAll(transfers, plan[..|plan| - 1], answers);
      var d := plan[|plan| - 1];
      if Starts(before, d, answers)
      then before[d.transferId := HandedOver(before[d.transferId], answers[d.transferId], d.bwlimit)]
      else before
  }

  predicate Starts(transfers: map<nat, Transfer>, d: Dispatch, answers: map<nat, Handover>) {
    && d.transferId in transfers
    && transfers[d.transferId].kind.MovesData()
    && d.transferId in answers
    && Legal(transfers[d.transferId].state, Assigned)
  }

  /** The dispatches of a plan that were started, which is what a pass returns. */
  function StartedOf(transfers: map<nat, Transfer>, plan: seq<Dispatch>, answers: map<nat, Handover>): seq<Dispatch> {
    if plan == [] then []
    else
      var n := |plan| - 1;
      StartedOf(transfers, plan[..n], answers)
        + (if Starts(StartAll(transfers, plan[..n], answers), plan[n], answers) then [plan[n]] else [])
  }

  /** schedule_once; `answers` holds what the daemons that accept say, and a missing entry is a refusal. */
  function ScheduleOnce(cfg: Cluster, db: Database, now: int, answers: map<nat, Handover>): Database {
    db.(transfers := StartAll(db.transfers, Planned(cfg, db, now).plan, answers))
  }
}
