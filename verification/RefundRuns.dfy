/** What is paid back for a transfer that is cancelled or fails, and to whom it is owed. */
module RefundRuns {
  import opened Options
  import opened Transfers
  import opened FairShare
  import opened Tables
  import opened Releases
  import opened Events
  import opened Submissions
  import opened Cancels
  import opened Runs
  import opened FilesetRuns
  import opened RowRuns
  import opened AccountRuns
  import Reconciling
  import SchedulerLoop
  import FS = Filesets

  function Cost(cfg: Cluster, plan: WarmPlan): real {
    PointsForBytes(Warm, plan.bytesTotal, cfg.pointsPerGib)
  }

  /** A warm is charged exactly when it is Done. */
  lemma ChargedIfDone(cfg: Cluster, db: Database, owner: string, plan: WarmPlan, now: int, prepared: Option<string>)
    requires WarmObjection(cfg, db, owner, plan).None?
    ensures var r := SubmitWarm(cfg, db, owner, plan, now, prepared);
      && r.0.accounts == (if r.1 == Done then Charged(db.accounts, owner, Cost(cfg, plan), now, cfg.decay)
                          else db.accounts)
      && db.nextTransfer in r.0.transfers
      && var t := r.0.transfers[db.nextTransfer];
         t.state == Submitted && t.startedAt.None? && t.user == owner && t.kind == Warm
           && t.bytesTotal == plan.bytesTotal
  {
  }

  lemma CancelRefunds(cfg: Cluster, db: Database, id: nat, now: int)
    requires id in db.transfers && CanCancel(db.transfers[id].state) && db.transfers[id].startedAt.None?
    ensures var t := db.transfers[id];
      Cancel(cfg, db, id, now).0.accounts
        == Charged(db.accounts, t.user, -PointsForBytes(t.kind, t.bytesTotal, cfg.pointsPerGib), now, cfg.decay)
  {
  }

  /** What the accounts come to once a warm is cancelled while it is still queued. */
  lemma AccountsAfterCancel(cfg: Cluster, db: Database, owner: string, plan: WarmPlan, now: int,
                            prepared: Option<string>, later: int)
    requires WarmObjection(cfg, db, owner, plan).None?
    ensures var r := SubmitWarm(cfg, db, owner, plan, now, prepared);
      Cancel(cfg, r.0, db.nextTransfer, later).0.accounts
      == Charged(if r.1 == Done then Charged(db.accounts, owner, Cost(cfg, plan), now, cfg.decay) else db.accounts,
                 owner, -Cost(cfg, plan), later, cfg.decay)
  {
    ChargedIfDone(cfg, db, owner, plan, now, prepared);
    CancelRefunds(cfg, SubmitWarm(cfg, db, owner, plan, now, prepared).0, db.nextTransfer, later);
  }

  /** When a charge at `now` leaves an account stamped. */
  function StampOf(accounts: map<string, Account>, user: string, now: int): int {
    if user in accounts && accounts[user].decayedAt > now then accounts[user].decayedAt else now
  }

  /** Cancelling a warm that is still queued leaves its user owing what they would have owed without it if and only if
      the warm was charged and no time has passed since, or there was nothing to owe, or nothing to charge; otherwise
      they owe less. One whose destination was never prepared is refunded though it was never charged, and a charge
      that has had time to decay is refunded in full. */
  lemma WarmRefundIsFairIff(cfg: Cluster, db: Database, owner: string, plan: WarmPlan, now: int,
                            prepared: Option<string>, later: int, read: int)
    requires cfg.Valid() && WarmObjection(cfg, db, owner, plan).None?
    requires owner in db.accounts ==> db.accounts[owner].points >= 0.0 && db.accounts[owner].decayedAt <= read
    requires now <= read && later <= read
    ensures var r := SubmitWarm(cfg, db, owner, plan, now, prepared);
      var after := Cancel(cfg, r.0, db.nextTransfer, later).0.accounts;
      var owed, owes := Owes(db.accounts, owner, read, cfg.decay), Owes(after, owner, read, cfg.decay);
      && owes <= owed
      && (owes == owed
          <==> (r.1 == Done && later <= StampOf(db.accounts, owner, now)) || owed == 0.0 || plan.bytesTotal == 0)
  {
    AccountsAfterCancel(cfg, db, owner, plan, now, prepared, later);
    FairIff(cfg, db.accounts, owner, Cost(cfg, plan), SubmitWarm(cfg, db, owner, plan, now, prepared).1 == Done, now,
            later, read);
    CostIff(cfg, plan);
  }

  lemma FairIff(cfg: Cluster, accounts: map<string, Account>, owner: string, c: real, charged: bool, now: int,
                later: int, read: int)
    requires cfg.Valid() && c >= 0.0 && now <= read && later <= read
    requires owner in accounts ==> accounts[owner].points >= 0.0 && accounts[owner].decayedAt <= read
    ensures var after :=
      Charged(if charged then Charged(accounts, owner, c, now, cfg.decay) else accounts, owner, -c, later, cfg.decay);
      var owed, owes := Owes(accounts, owner, read, cfg.decay), Owes(after, owner, read, cfg.decay);
      && owes <= owed
      && (owes == owed <==> (charged && later <= StampOf(accounts, owner, now)) || owed == 0.0 || c == 0.0)
  {
    var held := if owner in accounts then accounts[owner] else Account(0.0, if charged then now else later);
    if charged {
      ChargedAndRefunded(held, c, now, later, read, cfg.decay);
    } else {
      OnlyRefunded(held, c, later, read, cfg.decay);
    }
  }

  lemma CostIff(cfg: Cluster, plan: WarmPlan)
    requires cfg.Valid()
    ensures Cost(cfg, plan) >= 0.0 && (Cost(cfg, plan) == 0.0 <==> plan.bytesTotal == 0)
  {
    PointsIff(Warm, plan.bytesTotal, cfg.pointsPerGib);
  }

  lemma Product(x: real, y: real)
    requires x >= 0.0 && y > 0.0
    ensures x * y >= 0.0 && (x * y == 0.0 <==> x == 0.0)
  {
    if x > 0.0 { assert x * y > 0.0; }
  }

  /** Reading two accounts stamped alike keeps which of them owes more. */
  lemma ReadingKeepsOrder(x: Account, y: Account, read: int, decay: Decay)
    requires decay.Valid() && x.decayedAt == y.decayedAt <= read && x.points <= y.points
    ensures var a, b := Decayed(x, read, decay).points, Decayed(y, read, decay).points;
      a <= b && (a == b <==> x.points == y.points) && (b == 0.0 <==> y.points == 0.0)
  {
    var f := Pow(decay.factor, read - x.decayedAt);
    PowPositive(decay.factor, read - x.decayedAt);
    ForwardDecay(x, read, decay);
    ForwardDecay(y, read, decay);
    Scaled(x.points, y.points, f);
  }

  lemma Scaled(x: real, y: real, f: real)
    requires f > 0.0 && x <= y
    ensures x * f <= y * f && (x * f == y * f <==> x == y) && (y * f == 0.0 <==> y == 0.0)
  {
    assert (y - x) * f == y * f - x * f;
    if x < y { assert (y - x) * f > 0.0; }
    if y != 0.0 { assert y * f != 0.0; }
  }

  lemma NeverNegative(row: Account, now: int, decay: Decay)
    requires decay.Valid() && row.points >= 0.0
    ensures Decayed(row, now, decay).points >= 0.0
    ensures Decayed(row, now, decay).decayedAt == if now > row.decayedAt then now else row.decayedAt
  {
    KeepsSign(row, now, decay);
  }

  lemma OnlyRefunded(row: Account, c: real, later: int, read: int, decay: Decay)
    requires decay.Valid() && c >= 0.0 && row.points >= 0.0 && row.decayedAt <= read && later <= read
    ensures var owed, owes := Decayed(row, read, decay).points,
      Decayed(WithPoints(row, -c, later, decay), read, decay).points;
      owes <= owed && (owes == owed <==> owed == 0.0 || c == 0.0)
  {
    NeverNegative(row, later, decay);
    DecayedTwice(row, later, read, decay);
    ReadingKeepsOrder(WithPoints(row, -c, later, decay), Decayed(row, later, decay), read, decay);
  }

  lemma ChargedAndRefunded(row: Account, c: real, now: int, later: int, read: int, decay: Decay)
    requires decay.Valid() && c >= 0.0 && row.points >= 0.0 && row.decayedAt <= read && now <= read && later <= read
    ensures var owed, owes := Decayed(row, read, decay).points,
      Decayed(WithPoints(WithPoints(row, c, now, decay), -c, later, decay), read, decay).points;
      owes <= owed && (owes == owed <==> (later <= now || later <= row.decayedAt) || owed == 0.0 || c == 0.0)
  {
    var held := Decayed(row, now, decay);
    NeverNegative(row, now, decay);
    DecayedTwice(row, now, read, decay);
    var paid := WithPoints(Account(held.points + c, held.decayedAt), -c, later, decay);
    assert WithPoints(row, c, now, decay) == Account(held.points + c, held.decayedAt);
    if later > held.decayedAt {
      PaidBack(held, c, later, decay);
      DecayedTwice(held, later, read, decay);
      ReadingKeepsOrder(paid, Decayed(held, later, decay), read, decay);
      ReadingKeepsOrder(held, held, later, decay);
    } else {
      assert paid == held;
    }
  }

  /** Charged and refunded later: what is left is short by what the charge decayed by. */
  lemma PaidBack(held: Account, c: real, later: int, decay: Decay)
    requires decay.Valid() && c >= 0.0 && held.points >= 0.0 && held.decayedAt < later
    ensures var paid, own := WithPoints(Account(held.points + c, held.decayedAt), -c, later, decay),
      Decayed(held, later, decay);
      paid.decayedAt == own.decayedAt && paid.points <= own.points
        && (paid.points == own.points <==> held.points == 0.0 || c == 0.0)
  {
    NeverNegative(held, later, decay);
    if held.points > 0.0 && c > 0.0 {
      Shortfall(held.points, c, held.decayedAt, later, decay);
    } else {
      LessByAShare(decay, later - held.decayedAt);
      ForwardDecay(held, later, decay);
      ForwardDecay(Account(held.points + c, held.decayedAt), later, decay);
      Shrinks(c, Pow(decay.factor, later - held.decayedAt));
    }
  }

  lemma Shrinks(c: real, f: real)
    requires c >= 0.0 && 0.0 < f <= 1.0
    ensures c * f <= c
  {
    assert c * (1.0 - f) >= 0.0;
  }

  lemma Shortfall(p: real, c: real, now: int, later: int, decay: Decay)
    requires decay.Valid() && p > 0.0 && c > 0.0 && now <= later
    ensures var own, both := Decayed(Account(p, now), later, decay).points,
      Decayed(Account(p + c, now), later, decay).points;
      own > 0.0 && both - c <= own && (both - c == own <==> later == now)
  {
    LessByAShare(decay, later - now);
    ForwardDecay(Account(p, now), later, decay);
    ForwardDecay(Account(p + c, now), later, decay);
    Short(p, c, Pow(decay.factor, later - now), Decayed(Account(p + c, now), later, decay).points,
          Decayed(Account(p, now), later, decay).points);
  }

  lemma LessByAShare(decay: Decay, elapsed: nat)
    requires decay.Valid()
    ensures 0.0 < Pow(decay.factor, elapsed) <= 1.0
    ensures Pow(decay.factor, elapsed) == 1.0 <==> elapsed == 0
  {
    PowPositive(decay.factor, elapsed);
    FactorBelowOne(decay);
    if elapsed > 0 { PowShrinks(decay.factor, elapsed); }
  }

  lemma Short(p: real, c: real, f: real, both: real, own: real)
    requires p > 0.0 && c > 0.0 && 0.0 < f <= 1.0 && both == (p + c) * f && own == p * f
    ensures own > 0.0 && both - c <= own && (both - c == own <==> f == 1.0)
  {
    assert both - c == own - c * (1.0 - f);
    if f < 1.0 { assert c * (1.0 - f) > 0.0; }
  }

  // ---- Flushes ----

  /** The flush gets as far as its first commit. */
  ghost predicate FlushQueued(cfg: Cluster, db: Database, owner: string, flush: FlushPlan) {
    var found := LiveFileset(db.filesets, owner, flush.storage, flush.name);
    && found.Some? && |Queued(db.transfers, owner)| < cfg.queuedPerUser
    && FS.Legal(db.filesets[found.value].state, FS.Flushing)
  }

  ghost function BytesToFlush(db: Database, owner: string, flush: FlushPlan): nat {
    var found := LiveFileset(db.filesets, owner, flush.storage, flush.name);
    if found.Some? then FlushBytes(db.filesets[found.value], flush) else 0
  }

  lemma FlushChargedIfDone(cfg: Cluster, db: Database, owner: string, flush: FlushPlan, now: int, charged: bool)
    requires FlushQueued(cfg, db, owner, flush)
    ensures var r, c := SubmitFlush(cfg, db, owner, flush, now, charged),
      PointsForBytes(Flush, BytesToFlush(db, owner, flush), cfg.pointsPerGib);
      && r.1 == (if charged then Done else Raised(Interrupted))
      && r.0.accounts == (if charged then Charged(db.accounts, owner, c, now, cfg.decay) else db.accounts)
      && db.nextTransfer in r.0.transfers
      && var t := r.0.transfers[db.nextTransfer];
         t.state == Submitted && t.startedAt.None? && t.user == owner && t.kind == Flush
           && t.bytesTotal == BytesToFlush(db, owner, flush)
  {
  }

  lemma PointsIff(kind: Kind, size: nat, perGib: real)
    requires kind.MovesData() && perGib > 0.0
    ensures PointsForBytes(kind, size, perGib) >= 0.0 && (PointsForBytes(kind, size, perGib) == 0.0 <==> size == 0)
  {
    var gibs := (size + GIB - 1) / GIB;
    assert gibs >= 0 && (gibs == 0 <==> size == 0);
    Product(gibs as real, perGib);
  }

  /** The same of a flush: it is queued by a commit of its own, and one that was cut short before it was charged is paid
      back all the same. */
  lemma FlushRefundIsFairIff(cfg: Cluster, db: Database, owner: string, flush: FlushPlan, now: int, charged: bool,
                             later: int, read: int)
    requires cfg.Valid() && FlushQueued(cfg, db, owner, flush)
    requires owner in db.accounts ==> db.accounts[owner].points >= 0.0 && db.accounts[owner].decayedAt <= read
    requires now <= read && later <= read
    ensures var r := SubmitFlush(cfg, db, owner, flush, now, charged);
      var after := Cancel(cfg, r.0, db.nextTransfer, later).0.accounts;
      var owed, owes := Owes(db.accounts, owner, read, cfg.decay), Owes(after, owner, read, cfg.decay);
      && owes <= owed
      && (owes == owed
          <==> (charged && later <= StampOf(db.accounts, owner, now)) || owed == 0.0
               || BytesToFlush(db, owner, flush) == 0)
  {
    var bytes := BytesToFlush(db, owner, flush);
    FlushChargedIfDone(cfg, db, owner, flush, now, charged);
    CancelRefunds(cfg, SubmitFlush(cfg, db, owner, flush, now, charged).0, db.nextTransfer, later);
    PointsIff(Flush, bytes, cfg.pointsPerGib);
    FairIff(cfg, db.accounts, owner, PointsForBytes(Flush, bytes, cfg.pointsPerGib), charged, now, later, read);
  }

  // ---- Who counts as never having run ----

  /** The call takes in a report that the transfer has started. */
  ghost predicate TakesStart(cfg: Cluster, db: Database, a: Action, i: nat) {
    a.DoEvent? && a.event.transferId == i && a.event.kind == Started && Step(cfg, db, a).1 == Done
  }

  /** Some call of the run did. */
  ghost predicate StartHeard(cfg: Cluster, run: seq<Action>, i: nat) {
    && run != []
    && var n := |run| - 1;
       StartHeard(cfg, run[..n], i) || TakesStart(cfg, After(cfg, EMPTY, run[..n]), run[n], i)
  }

  lemma EventStarts(cfg: Cluster, db: Database, e: Event, now: int, store: Option<DeleteAnswer>, i: nat)
    requires Linked(db) && i in db.transfers
    ensures var r := ApplyEvent(cfg, db, e, now, store);
      && i in r.0.transfers
      && (if r.1 == Done && e.transferId == i && e.kind == Started then r.0.transfers[i].startedAt.Some?
          else r.0.transfers[i].startedAt == db.transfers[i].startedAt)
  {
    if Objection(cfg, db, e).None? && store.Some? {
      ReleaseAdds(Accepted(cfg, db, e, now), db.transfers[e.transferId].filesetId, now, store.value);
    }
  }

  lemma ReconcileKeepsStart(cfg: Cluster, db: Database, a: Action, i: nat)
    requires Sound(cfg, db) && i in db.transfers && a.DoReconcile? && a.id == i
    ensures var after := Step(cfg, db, a).0.transfers;
      i in after && after[i].startedAt == db.transfers[i].startedAt
  {
    if InFlight(db.transfers[i].state) {
      RequeueNeverFires(cfg, db, i, a.task, a.now);
      if db.transfers[i].taskId.Some? {
        var e := Reconciling.TaskEvent(cfg, i, db.transfers[i], a.task, a.now);
        if e.Some? { EventStarts(cfg, db, e.value, a.now, None, i); }
      }
    }
  }

  /** Only a report taken in that a transfer has started makes it one that has. */
  lemma StepStarts(cfg: Cluster, db: Database, a: Action, i: nat)
    requires Sound(cfg, db) && i in db.transfers && i in Step(cfg, db, a).0.transfers
    ensures Step(cfg, db, a).0.transfers[i].startedAt.Some?
      <==> db.transfers[i].startedAt.Some? || TakesStart(cfg, db, a, i)
  {
    if !Touches(a, i) {
      UntouchedStays(cfg, db, a, i);
    } else {
      match a
      case DoEvent(event, now, store) => EventStarts(cfg, db, event, now, store, i);
      case DoReconcile(_, _, _) => ReconcileKeepsStart(cfg, db, a, i);
      case DoSchedule(now, answers) =>
        PassKeeps(db.transfers, SchedulerLoop.Planned(cfg, db, now).plan, answers, i);
      case _ =>
    }
  }

  lemma AbsentTakesNothing(cfg: Cluster, db: Database, a: Action, i: nat)
    requires i !in db.transfers
    ensures !TakesStart(cfg, db, a, i)
  {
  }

  /** After any run a warm or flush counts as started if and only if a report of its start was taken in; that it runs,
      or has run, by other reports is not enough. */
  lemma {:induction false} StartedIff(cfg: Cluster, run: seq<Action>, i: nat)
    ensures StartHeard(cfg, run, i) ==> i < After(cfg, EMPTY, run).nextTransfer
    ensures var rows := After(cfg, EMPTY, run).transfers;
      i in rows && rows[i].kind.MovesData() ==> (rows[i].startedAt.Some? <==> StartHeard(cfg, run, i))
  {
    if run != [] {
      var n := |run| - 1;
      var before := After(cfg, EMPTY, run[..n]);
      StartedIff(cfg, run[..n], i);
      EmptyIsSound(cfg);
      RunsAreSound(cfg, EMPTY, run[..n]);
      StepMovesTable(cfg, before, run[n]);
      var after := Step(cfg, before, run[n]).0;
      if i in after.transfers {
        if i in before.transfers {
          assert RowMoves(cfg, before.transfers[i], after.transfers[i], run[n].DoSchedule?);
          StepStarts(cfg, before, run[n], i);
        } else {
          AbsentTakesNothing(cfg, before, run[n], i);
        }
      }
    }
  }

  lemma CancelPaysIff(cfg: Cluster, db: Database, i: nat, now: int)
    requires i in db.transfers && CanCancel(db.transfers[i].state)
    ensures ChargeOf(cfg, db, DoCancel(i, now)).Some? <==> db.transfers[i].startedAt.None?
  {
  }

  /** So cancelling a warm or flush, whatever it has done, pays its user back if and only if no report of its start was
      taken in. */
  lemma CancelRefundedIff(cfg: Cluster, run: seq<Action>, i: nat, now: int)
    requires var rows := After(cfg, EMPTY, run).transfers;
      i in rows && rows[i].kind.MovesData() && CanCancel(rows[i].state)
    ensures ChargeOf(cfg, After(cfg, EMPTY, run), DoCancel(i, now)).Some? <==> !StartHeard(cfg, run, i)
  {
    StartedIff(cfg, run, i);
    CancelPaysIff(cfg, After(cfg, EMPTY, run), i, now);
  }

  lemma FailurePaysIff(cfg: Cluster, db: Database, e: Event, now: int)
    requires Objection(cfg, db, e).None? && e.kind == FailedEvent
      && !Retries(cfg, db.transfers[e.transferId].attempt, e.failure)
    ensures EventCharge(cfg, db, e, now).Some? <==> db.transfers[e.transferId].startedAt.None?
  {
  }

  /** And so does a failure for good. */
  lemma FailureRefundedIff(cfg: Cluster, run: seq<Action>, e: Event, now: int)
    requires var db := After(cfg, EMPTY, run);
      && Objection(cfg, db, e).None? && db.transfers[e.transferId].kind.MovesData()
      && e.kind == FailedEvent && !Retries(cfg, db.transfers[e.transferId].attempt, e.failure)
    ensures EventCharge(cfg, After(cfg, EMPTY, run), e, now).Some? <==> !StartHeard(cfg, run, e.transferId)
  {
    StartedIff(cfg, run, e.transferId);
    FailurePaysIff(cfg, After(cfg, EMPTY, run), e, now);
  }

  /** A transfer whose start was lost runs by its progress, and is paid back when it is cancelled after all. */
  lemma LostStartIsRefunded(cfg: Cluster, db: Database, e: Event, now: int, later: int)
    requires e.transferId in db.transfers && db.transfers[e.transferId].filesetId in db.filesets
    requires db.transfers[e.transferId].state == Assigned && db.transfers[e.transferId].startedAt.None?
    requires e.kind == Progress && Objection(cfg, db, e).None?
    ensures var t, after := db.transfers[e.transferId], ApplyEvent(cfg, db, e, now, None).0;
      && after.transfers[e.transferId].state == Running
      && Cancel(cfg, after, e.transferId, later).0.accounts
         == Charged(after.accounts, t.user, -PointsForBytes(t.kind, t.bytesTotal, cfg.pointsPerGib), later, cfg.decay)
  {
    CancelRefunds(cfg, ApplyEvent(cfg, db, e, now, None).0, e.transferId, later);
  }
}
