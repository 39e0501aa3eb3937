/** The reports of one attempt against their delivery in order. */
module OrderRuns {
  import opened Options
  import opened Transfers
  import opened Tables
  import opened Events
  import opened EventRuns
  import FS = Filesets

  ghost predicate InOrder(events: seq<Event>, ds: seq<Delivery>) {
    |ds| == |events| && forall k :: 0 <= k < |ds| ==> ds[k].event == events[k]
  }

  // ---- What each event does in its turn ----

  /** A report that shows the transfer running. */
  predicate Shows(t: Transfer, e: Event) {
    e.kind in {Started, Progress} && e.sequence > t.lastSequence && Brings(t, e)
  }

  /** The transfer runs by the time of event k: it did from the beginning, or an earlier report shows it. */
  ghost predicate RunsBy(t: Transfer, events: seq<Event>, k: nat)
    requires k <= |events|
  {
    t.state == Running || exists j :: 0 <= j < k && Shows(t, events[j])
  }

  /** The bytes on record by then are negative: the last number other than zero in those reports is, or failing one the
      number there was. */
  predicate NegativeBy(t: Transfer, events: seq<Event>, k: nat)
    requires k <= |events|
  {
    if k == 0 then t.bytesDone < 0
    else if Shows(t, events[k - 1]) && events[k - 1].bytesDone != 0 then events[k - 1].bytesDone < 0
    else NegativeBy(t, events, k - 1)
  }

  /** The use a finish would record is no negative number; a flush records none. */
  predicate UseOk(t: Transfer, events: seq<Event>, k: nat)
    requires k < |events|
  {
    || t.kind == Flush
    || (if events[k].bytesDone != 0 then events[k].bytesDone > 0 else !NegativeBy(t, events, k))
  }

  /** Event k would end an attempt that nothing has ended before: a finish of a transfer that runs, on a fileset that
      can become READY; or a failure, to be retried or on a fileset that can become FAILED. */
  ghost predicate EndsAt(cfg: Cluster, t: Transfer, state: FS.FilesetState, events: seq<Event>, k: nat)
    requires k < |events|
  {
    var e := events[k];
    && e.sequence > t.lastSequence && Brings(t, e)
    && match e.kind
       case Started => false
       case Progress => false
       case Finished => RunsBy(t, events, k) && FS.Legal(state, FS.Ready) && UseOk(t, events, k)
       case FailedEvent => Retries(cfg, t.attempt, e.failure) || FS.Legal(state, FS.Failed)
  }

  ghost predicate NoneEndsBefore(cfg: Cluster, t: Transfer, state: FS.FilesetState, events: seq<Event>, k: nat)
    requires k <= |events|
  {
    forall j :: 0 <= j < k ==> !EndsAt(cfg, t, state, events, j)
  }

  /** The first of the events before k to end the attempt is a failure, and none of them is one that is retried. */
  ghost predicate FailsForGoodBefore(cfg: Cluster, t: Transfer, state: FS.FilesetState, events: seq<Event>, k: nat)
    requires k <= |events|
  {
    && (exists j :: 0 <= j < k && FirstFailure(cfg, t, state, events, j))
    && (forall j :: 0 <= j < k ==> !SendsBack(cfg, t, events[j]))
  }

  ghost predicate FirstFailure(cfg: Cluster, t: Transfer, state: FS.FilesetState, events: seq<Event>, j: nat)
    requires j < |events|
  {
    events[j].kind == FailedEvent && EndsAt(cfg, t, state, events, j) && NoneEndsBefore(cfg, t, state, events, j)
  }

  /** The guard: nothing before the last event ends the attempt, and the last does; or what ends it first is a failure
      for good, nothing after that is retried, and the last is a failure that is retried after all. */
  ghost predicate EndsWithTheLast(cfg: Cluster, db: Database, id: nat, events: seq<Event>)
    requires AttemptEvents(db, id, events)
  {
    var t, n := db.transfers[id], |events| - 1;
    var state := db.filesets[t.filesetId].state;
    || (NoneEndsBefore(cfg, t, state, events, n) && EndsAt(cfg, t, state, events, n))
    || (FailsForGoodBefore(cfg, t, state, events, n) && SendsBack(cfg, t, events[n]))
  }

  // ---- The delivery in order, event by event ----

  /** What has become of the attempt. */
  datatype Phase = Open | Completed | FailedForGood | SentBack

  ghost function PhaseAfter(cfg: Cluster, t: Transfer, state: FS.FilesetState, events: seq<Event>, k: nat): Phase
    requires k <= |events|
  {
    if k == 0 then Open
    else
      var before, e := PhaseAfter(cfg, t, state, events, k - 1), events[k - 1];
      match before
      case Open =>
        if !EndsAt(cfg, t, state, events, k - 1) then Open
        else if e.kind == Finished then Completed
        else if Retries(cfg, t.attempt, e.failure) then SentBack
        else FailedForGood
      case FailedForGood => if SendsBack(cfg, t, e) then SentBack else FailedForGood
      case _ => before
  }

  lemma {:induction false} OpenIff(cfg: Cluster, t: Transfer, state: FS.FilesetState, events: seq<Event>, k: nat)
    requires k <= |events|
    ensures PhaseAfter(cfg, t, state, events, k) == Open <==> NoneEndsBefore(cfg, t, state, events, k)
  {
    if k > 0 { OpenIff(cfg, t, state, events, k - 1); }
  }

  lemma {:induction false} FailedIff(cfg: Cluster, t: Transfer, state: FS.FilesetState, events: seq<Event>, k: nat)
    requires k <= |events|
    ensures PhaseAfter(cfg, t, state, events, k) == FailedForGood <==> FailsForGoodBefore(cfg, t, state, events, k)
  {
    if k > 0 {
      FailedIff(cfg, t, state, events, k - 1);
      OpenIff(cfg, t, state, events, k - 1);
      NotYetFailed(cfg, t, state, events, k - 1);
    }
  }

  /** While nothing has ended the attempt, the next event is the first failure if it ends it so. */
  lemma NotYetFailed(cfg: Cluster, t: Transfer, state: FS.FilesetState, events: seq<Event>, k: nat)
    requires k < |events|
    ensures NoneEndsBefore(cfg, t, state, events, k) ==>
              && (forall j :: 0 <= j < k ==> !SendsBack(cfg, t, events[j]) && !FirstFailure(cfg, t, state, events, j))
              && (FirstFailure(cfg, t, state, events, k)
                  <==> EndsAt(cfg, t, state, events, k) && events[k].kind == FailedEvent)
    ensures !NoneEndsBefore(cfg, t, state, events, k) ==> !FirstFailure(cfg, t, state, events, k)
  {
    if NoneEndsBefore(cfg, t, state, events, k) {
      forall j | 0 <= j < k ensures !SendsBack(cfg, t, events[j]) && !FirstFailure(cfg, t, state, events, j) {
        assert !EndsAt(cfg, t, state, events, j);
      }
    }
  }

  /** Where the row is in each phase. */
  ghost predicate InPhase(t: Transfer, events: seq<Event>, k: nat, phase: Phase, u: Transfer)
    requires k <= |events|
  {
    match phase
    case Open =>
      u.state == (if RunsBy(t, events, k) then Running else Assigned) && (u.bytesDone < 0 <==> NegativeBy(t, events, k))
    case Completed => u.state == Succeeded
    case FailedForGood => u.state == Failed && u.attempt == t.attempt
    case SentBack => u.attempt > t.attempt
  }

  ghost predicate OnTrack(cfg: Cluster, db: Database, id: nat, events: seq<Event>, k: nat, db': Database)
    requires AttemptEvents(db, id, events) && k < |events|
  {
    && Outstanding(cfg, db, id, events, db')
    && var t, u := db.transfers[id], db'.transfers[id];
       && (forall j :: k <= j < |events| && events[j].sequence > t.lastSequence ==> events[j].sequence > u.lastSequence)
       && InPhase(t, events, k, PhaseAfter(cfg, t, db.filesets[t.filesetId].state, events, k), u)
  }

  /** One event in its turn while the attempt is open. */
  lemma OpenTurn(cfg: Cluster, db: Database, id: nat, events: seq<Event>, k: nat, db': Database)
    requires AttemptEvents(db, id, events) && k < |events| && OnTrack(cfg, db, id, events, k, db')
    requires PhaseAfter(cfg, db.transfers[id], db.filesets[db.transfers[id].filesetId].state, events, k) == Open
    ensures var t, e := db.transfers[id], events[k];
      Objection(cfg, db', e).None? <==> Shows(t, e) || EndsAt(cfg, t, db.filesets[t.filesetId].state, events, k)
  {
  }

  /** One event in its turn once a failure has ended it for good. */
  lemma FailedTurn(cfg: Cluster, db: Database, id: nat, events: seq<Event>, k: nat, db': Database)
    requires AttemptEvents(db, id, events) && k < |events| && OnTrack(cfg, db, id, events, k, db')
    requires PhaseAfter(cfg, db.transfers[id], db.filesets[db.transfers[id].filesetId].state, events, k)
      == FailedForGood
    ensures Objection(cfg, db', events[k]).None? <==> SendsBack(cfg, db.transfers[id], events[k])
  {
  }

  /** Nothing is taken in once the work is done. */
  lemma CompletedTurn(cfg: Cluster, db: Database, id: nat, events: seq<Event>, k: nat, db': Database)
    requires AttemptEvents(db, id, events) && k < |events| && OnTrack(cfg, db, id, events, k, db')
    requires PhaseAfter(cfg, db.transfers[id], db.filesets[db.transfers[id].filesetId].state, events, k) == Completed
    ensures Objection(cfg, db', events[k]).Some?
  {
  }

  lemma ShowsNext(t: Transfer, events: seq<Event>, k: nat)
    requires k < |events|
    ensures RunsBy(t, events, k + 1) <==> RunsBy(t, events, k) || Shows(t, events[k])
  {
  }

  /** A report that is taken in moves the row to where its phase says, and is the newest there is. */
  lemma TakenInTurn(cfg: Cluster, db: Database, id: nat, events: seq<Event>, k: nat, db': Database, d: Delivery)
    requires AttemptEvents(db, id, events) && k < |events| - 1 && OnTrack(cfg, db, id, events, k, db')
      && d.event == events[k]
    requires Objection(cfg, db', d.event).None?
    ensures var t, after := db.transfers[id], ApplyEvent(cfg, db', d.event, d.now, d.store).0;
      && id in after.transfers && after.transfers[id].lastSequence == events[k].sequence
      && InPhase(t, events, k + 1, PhaseAfter(cfg, t, db.filesets[t.filesetId].state, events, k + 1),
                 after.transfers[id])
  {
    var t := db.transfers[id];
    TakenIn(cfg, db', d.event, d.now, d.store);
    ShowsNext(t, events, k);
    match PhaseAfter(cfg, t, db.filesets[t.filesetId].state, events, k)
    case Open => OpenTurn(cfg, db, id, events, k, db');
    case FailedForGood => FailedTurn(cfg, db, id, events, k, db');
    case Completed => CompletedTurn(cfg, db, id, events, k, db');
    case SentBack =>
  }

  /** One that is not leaves the row where it was, which is where its phase says. */
  lemma RefusedInTurn(cfg: Cluster, db: Database, id: nat, events: seq<Event>, k: nat, db': Database)
    requires AttemptEvents(db, id, events) && k < |events| - 1 && OnTrack(cfg, db, id, events, k, db')
    requires Objection(cfg, db', events[k]).Some?
    ensures OnTrack(cfg, db, id, events, k + 1, db')
  {
    var t := db.transfers[id];
    ShowsNext(t, events, k);
    match PhaseAfter(cfg, t, db.filesets[t.filesetId].state, events, k)
    case Open => OpenTurn(cfg, db, id, events, k, db');
    case FailedForGood => FailedTurn(cfg, db, id, events, k, db');
    case _ =>
  }

  lemma OneTurn(cfg: Cluster, db: Database, id: nat, events: seq<Event>, k: nat, db': Database, d: Delivery)
    requires AttemptEvents(db, id, events) && k < |events| - 1 && OnTrack(cfg, db, id, events, k, db')
      && d.event == events[k]
    ensures OnTrack(cfg, db, id, events, k + 1, ApplyEvent(cfg, db', d.event, d.now, d.store).0)
  {
    if Objection(cfg, db', d.event).Some? {
      RefusedInTurn(cfg, db, id, events, k, db');
    } else {
      EarlierEvent(cfg, db, id, events, db', k, d.now, d.store);
      TakenInTurn(cfg, db, id, events, k, db', d);
    }
  }

  lemma {:induction false} OrderedPrefix(cfg: Cluster, db: Database, id: nat, events: seq<Event>,
                                         ds: seq<Delivery>, k: nat)
    requires AttemptEvents(db, id, events) && InOrder(events, ds) && k < |events|
    ensures OnTrack(cfg, db, id, events, k, Delivered(cfg, db, ds[..k]))
  {
    if k == 0 {
      assert ds[..0] == [];
    } else {
      OrderedPrefix(cfg, db, id, events, ds, k - 1);
      assert ds[..k][..k - 1] == ds[..k - 1];
      OneTurn(cfg, db, id, events, k - 1, Delivered(cfg, db, ds[..k - 1]), ds[k - 1]);
    }
  }

  // ---- Whether delivery in order takes in the last ----

  lemma LastTaken(cfg: Cluster, db: Database, id: nat, events: seq<Event>, ds: seq<Delivery>)
    requires AttemptEvents(db, id, events) && InOrder(events, ds)
    ensures FromAttempt(events, ds)
    ensures TakesLast(cfg, db, events, ds)
      <==> Objection(cfg, Delivered(cfg, db, ds[..|events| - 1]), LastOf(events)).None?
  {
    var n := |events| - 1;
    if k :| 0 <= k < |ds| && ds[k].event == LastOf(events) && Takes(cfg, db, ds, k) {
      assert events[k].sequence == events[n].sequence;
      assert k == n;
    }
    if Takes(cfg, db, ds, n) { assert ds[n].event == LastOf(events); }
  }

  /** Delivery in order takes in the last event, and does so in the one way every other complete delivery does, if and
      only if the attempt ends with it. */
  lemma TakenInOrderIff(cfg: Cluster, db: Database, id: nat, events: seq<Event>, ds: seq<Delivery>)
    requires AttemptEvents(db, id, events) && InOrder(events, ds)
    ensures TakesLast(cfg, db, events, ds) && !EndsVary(cfg, db, id, events) <==> EndsWithTheLast(cfg, db, id, events)
  {
    var t, n := db.transfers[id], |events| - 1;
    var state, before := db.filesets[t.filesetId].state, Delivered(cfg, db, ds[..n]);
    OrderedPrefix(cfg, db, id, events, ds, n);
    LastTaken(cfg, db, id, events, ds);
    OpenIff(cfg, t, state, events, n);
    FailedIff(cfg, t, state, events, n);
    match PhaseAfter(cfg, t, state, events, n)
    case Open =>
      OpenTurn(cfg, db, id, events, n, before);
      NotYetFailed(cfg, t, state, events, n);
    case FailedForGood => FailedTurn(cfg, db, id, events, n, before);
    case Completed => CompletedTurn(cfg, db, id, events, n, before);
    case SentBack => if Objection(cfg, before, events[n]).None? { LastInAttempt(cfg, db, id, events, before); }
  }

  // ---- Whether every complete delivery leaves what delivery in order leaves ----

  ghost predicate SomeComplete(cfg: Cluster, db: Database, events: seq<Event>)
    requires events != []
  {
    exists ds :: Complete(cfg, db, events, ds)
  }

  ghost predicate SameAsInOrder(cfg: Cluster, db: Database, id: nat, events: seq<Event>)
    requires AttemptEvents(db, id, events)
  {
    forall ds, inOrder :: Complete(cfg, db, events, ds) && InOrder(events, inOrder) ==>
      && id in Delivered(cfg, db, ds).transfers && id in Delivered(cfg, db, inOrder).transfers
      && SameOutcome(Delivered(cfg, db, ds).transfers[id], Delivered(cfg, db, inOrder).transfers[id])
  }

  function Ordered(events: seq<Event>): (ds: seq<Delivery>)
    ensures InOrder(events, ds)
  {
    seq(|events|, k requires 0 <= k < |events| => Delivery(events[k], 0, None))
  }

  /** A delivery that does not take in the last event shows another number than one that does. */
  lemma LastNumberTells(cfg: Cluster, db: Database, id: nat, events: seq<Event>, ds: seq<Delivery>,
                        other: seq<Delivery>)
    requires AttemptEvents(db, id, events) && Complete(cfg, db, events, ds)
    requires FromAttempt(events, other) && !TakesLast(cfg, db, events, other)
    ensures id in Delivered(cfg, db, ds).transfers && id in Delivered(cfg, db, other).transfers
    ensures !SameOutcome(Delivered(cfg, db, ds).transfers[id], Delivered(cfg, db, other).transfers[id])
  {
    var attempt := Delivering(cfg, db, id, events, ds);
    var untaken := Delivering(cfg, db, id, events, other);
    NewerThanBefore(cfg, db, id, events, ds);
  }

  lemma {:induction false} NewerThanBefore(cfg: Cluster, db: Database, id: nat, events: seq<Event>, ds: seq<Delivery>)
    requires AttemptEvents(db, id, events) && Complete(cfg, db, events, ds)
    ensures LastOf(events).sequence > db.transfers[id].lastSequence
  {
    var n := |ds| - 1;
    TakesLater(cfg, db, events, ds);
    if TakesLast(cfg, db, events, ds[..n]) {
      NewerThanBefore(cfg, db, id, events, ds[..n]);
    } else {
      var attempt := Delivering(cfg, db, id, events, ds[..n]);
    }
  }

  /** Some delivery of the events of an attempt - in any order, with losses and repetitions - takes in the last, and all
      that do leave what delivery in order leaves, if and only if the attempt ends with its last event. */
  lemma OrderDoesNotMatterIff(cfg: Cluster, db: Database, id: nat, events: seq<Event>)
    requires AttemptEvents(db, id, events)
    ensures SomeComplete(cfg, db, events) && SameAsInOrder(cfg, db, id, events)
      <==> EndsWithTheLast(cfg, db, id, events)
  {
    AgreeIff(cfg, db, id, events);
    if EndsWithTheLast(cfg, db, id, events) {
      EachAsInOrder(cfg, db, id, events);
    } else if SomeComplete(cfg, db, events) && SameAsInOrder(cfg, db, id, events) {
      var inOrder := Ordered(events);
      TakenInOrderIff(cfg, db, id, events, inOrder);
      LastTaken(cfg, db, id, events, inOrder);
      if !TakesLast(cfg, db, events, inOrder) {
        var ds :| Complete(cfg, db, events, ds);
        LastNumberTells(cfg, db, id, events, ds, inOrder);
        assert false;
      }
      AllAgreeThroughOrder(cfg, db, id, events, inOrder);
    }
  }

  lemma AllAgreeThroughOrder(cfg: Cluster, db: Database, id: nat, events: seq<Event>, inOrder: seq<Delivery>)
    requires AttemptEvents(db, id, events) && InOrder(events, inOrder) && SameAsInOrder(cfg, db, id, events)
    ensures AllAgree(cfg, db, id, events)
  {
    forall ds, ds' | Complete(cfg, db, events, ds) && Complete(cfg, db, events, ds')
      ensures && id in Delivered(cfg, db, ds).transfers && id in Delivered(cfg, db, ds').transfers
              && SameOutcome(Delivered(cfg, db, ds).transfers[id], Delivered(cfg, db, ds').transfers[id])
    {
      var u, v, w := Delivered(cfg, db, ds).transfers, Delivered(cfg, db, ds').transfers,
        Delivered(cfg, db, inOrder).transfers;
      assert id in u && id in w && SameOutcome(u[id], w[id]);
      assert id in v && SameOutcome(v[id], w[id]);
    }
  }

  lemma EachAsInOrder(cfg: Cluster, db: Database, id: nat, events: seq<Event>)
    requires AttemptEvents(db, id, events) && EndsWithTheLast(cfg, db, id, events)
    ensures SomeComplete(cfg, db, events) && SameAsInOrder(cfg, db, id, events)
  {
    AgreeIff(cfg, db, id, events);
    forall inOrder | InOrder(events, inOrder)
      ensures Complete(cfg, db, events, inOrder) && !EndsVary(cfg, db, id, events)
    {
      TakenInOrderIff(cfg, db, id, events, inOrder);
      LastTaken(cfg, db, id, events, inOrder);
    }
    assert Complete(cfg, db, events, Ordered(events));
  }

  // ---- The guard where some delivery takes in the last ----

  lemma {:induction false} FirstTaken(cfg: Cluster, db: Database, events: seq<Event>, ds: seq<Delivery>)
      returns (k: nat)
    requires events != [] && TakesLast(cfg, db, events, ds)
    ensures k < |ds| && ds[k].event == LastOf(events) && Takes(cfg, db, ds, k) && !TakesLast(cfg, db, events, ds[..k])
  {
    var n := |ds| - 1;
    TakesLater(cfg, db, events, ds);
    if TakesLast(cfg, db, events, ds[..n]) {
      k := FirstTaken(cfg, db, events, ds[..n]);
      TakesPrefix(cfg, db, ds, n, k);
      assert ds[..n][..k] == ds[..k];
    } else {
      k := n;
    }
  }

  lemma TakenUnobjected(cfg: Cluster, db: Database, d: Delivery)
    requires ApplyEvent(cfg, db, d.event, d.now, d.store).1 == Done
    ensures Objection(cfg, db, d.event).None?
  {
  }

  lemma OneMoreRuns(cfg: Cluster, db: Database, id: nat, events: seq<Event>, before: Database, j: nat, d: Delivery)
    requires AttemptEvents(db, id, events) && Outstanding(cfg, db, id, events, before) && j < |events|
      && d.event == events[j]
    requires j == |events| - 1 ==> ApplyEvent(cfg, before, d.event, d.now, d.store).1 != Done
    requires before.transfers[id].state == Running ==> RunsBy(db.transfers[id], events, |events| - 1)
    ensures var after := ApplyEvent(cfg, before, d.event, d.now, d.store).0;
      id in after.transfers && (after.transfers[id].state == Running ==> RunsBy(db.transfers[id], events, |events| - 1))
  {
    if Objection(cfg, before, d.event).None? {
      TakenIn(cfg, before, d.event, d.now, d.store);
      assert d.event.kind in {Started, Progress} ==> Shows(db.transfers[id], events[j]);
    }
  }

  /** While the last is outstanding the transfer runs only if it did or some report shows it. */
  lemma {:induction false} RunsForAReason(cfg: Cluster, db: Database, id: nat, events: seq<Event>, ds: seq<Delivery>)
    requires AttemptEvents(db, id, events) && FromAttempt(events, ds) && !TakesLast(cfg, db, events, ds)
    ensures id in Delivered(cfg, db, ds).transfers
    ensures Delivered(cfg, db, ds).transfers[id].state == Running ==> RunsBy(db.transfers[id], events, |events| - 1)
  {
    if ds != [] {
      var n := |ds| - 1;
      TakesLater(cfg, db, events, ds);
      RunsForAReason(cfg, db, id, events, ds[..n]);
      var early := Delivering(cfg, db, id, events, ds[..n]);
      var j :| 0 <= j < |events| && events[j] == ds[n].event;
      OneMoreRuns(cfg, db, id, events, Delivered(cfg, db, ds[..n]), j, ds[n]);
    }
  }

  /** A last event that some row takes in would end the attempt in order too, but for a use that is negative there. */
  lemma TakenEnds(cfg: Cluster, db: Database, id: nat, events: seq<Event>, before: Database)
    requires AttemptEvents(db, id, events) && Outstanding(cfg, db, id, events, before)
    requires before.transfers[id].state == Running ==> RunsBy(db.transfers[id], events, |events| - 1)
    requires Objection(cfg, before, LastOf(events)).None?
    ensures var t, n := db.transfers[id], |events| - 1;
      EndsAt(cfg, t, db.filesets[t.filesetId].state, events, n)
      <==> events[n].kind == FailedEvent || UseOk(t, events, n)
  {
    var t, u, e := db.transfers[id], before.transfers[id], LastOf(events);
    if e.kind == FailedEvent && Retries(cfg, u.attempt, e.failure) {
      FewerRetriesLater(cfg, t.attempt, u.attempt, e.failure);
    }
  }

  /** Where some delivery takes in the last event, what is left of the guard is that no earlier event ends the attempt,
      and the use is no negative number; or that what ends it first is a failure for good, nothing after that is
      retried, and the last is a failure that is. */
  lemma GuardWhereTaken(cfg: Cluster, db: Database, id: nat, events: seq<Event>)
    requires AttemptEvents(db, id, events) && SomeComplete(cfg, db, events)
    ensures var t, n := db.transfers[id], |events| - 1;
      var state := db.filesets[t.filesetId].state;
      EndsWithTheLast(cfg, db, id, events)
      <==> || (NoneEndsBefore(cfg, t, state, events, n) && (events[n].kind == FailedEvent || UseOk(t, events, n)))
           || (FailsForGoodBefore(cfg, t, state, events, n) && SendsBack(cfg, t, events[n]))
  {
    var ds :| Complete(cfg, db, events, ds);
    var k := FirstTaken(cfg, db, events, ds);
    RunsForAReason(cfg, db, id, events, ds[..k]);
    var untaken := Delivering(cfg, db, id, events, ds[..k]);
    TakenUnobjected(cfg, Delivered(cfg, db, ds[..k]), ds[k]);
    TakenEnds(cfg, db, id, events, Delivered(cfg, db, ds[..k]));
  }

  // ---- The work of an attempt that ends once ----

  /** Reports that it has started and how far it has come, in counts of bytes, and its one end. */
  ghost predicate OneEnd(db: Database, id: nat, events: seq<Event>)
    requires AttemptEvents(db, id, events)
  {
    && db.transfers[id].bytesDone >= 0
    && (forall k :: 0 <= k < |events| ==> events[k].bytesDone >= 0)
    && (forall k :: 0 <= k < |events| - 1 ==> events[k].kind in {Started, Progress})
  }

  lemma {:induction false} NeverNegative(t: Transfer, events: seq<Event>, k: nat)
    requires k <= |events| && t.bytesDone >= 0 && forall j :: 0 <= j < |events| ==> events[j].bytesDone >= 0
    ensures !NegativeBy(t, events, k)
  {
    if k > 0 { NeverNegative(t, events, k - 1); }
  }

  /** Where some delivery takes in the end of such an attempt, the attempt ends with it: delivery in order takes it in
      too, and leaves what every other complete delivery does. */
  lemma OneEndIsLast(cfg: Cluster, db: Database, id: nat, events: seq<Event>)
    requires AttemptEvents(db, id, events) && OneEnd(db, id, events) && SomeComplete(cfg, db, events)
    ensures EndsWithTheLast(cfg, db, id, events)
  {
    GuardWhereTaken(cfg, db, id, events);
    NeverNegative(db.transfers[id], events, |events| - 1);
  }

  // ---- Two ways a shutdown can fall together with the end of the work ----

  /** A running transfer of a fileset that is being filled, and an end of it that can be taken in. */
  predicate Ending(db: Database, id: nat, e: Event)
    requires id in db.transfers && db.transfers[id].filesetId in db.filesets
  {
    var t := db.transfers[id];
    && t.state == Running && db.filesets[t.filesetId].state == FS.Populating
    && e.transferId == id && e.sequence > t.lastSequence && Brings(t, e) && e.kind in {Finished, FailedEvent}
    && (e.kind == Finished ==> e.bytesDone > 0)
    && t.bytesDone <= t.bytesTotal
  }

  /** Taken in first, each of the two ends leaves what it says. */
  lemma EndTaken(cfg: Cluster, db: Database, id: nat, e: Event)
    requires id in db.transfers && id < db.nextTransfer && db.transfers[id].filesetId in db.filesets
      && Ending(db, id, e)
    ensures Objection(cfg, db, e).None?
    ensures var t, after := db.transfers[id], ApplyEvent(cfg, db, e, 0, None).0;
      && id in after.transfers && t.filesetId in after.filesets && after.transfers[id].lastSequence == e.sequence
      && (e.kind == Finished ==> after.transfers[id].state == Succeeded)
      && (SendsBack(cfg, t, e)
          ==> after.transfers[id].state == Submitted && after.transfers[id].attempt == t.attempt + 1)
  {
    TakenIn(cfg, db, e, 0, None);
  }

  /** And taken in second, neither is. */
  lemma EndRefused(cfg: Cluster, db: Database, e: Event)
    requires e.transferId in db.transfers && e.sequence > db.transfers[e.transferId].lastSequence
    requires (db.transfers[e.transferId].state == Submitted && e.kind == Finished)
          || (db.transfers[e.transferId].state == Succeeded && e.kind == FailedEvent)
    ensures ApplyEvent(cfg, db, e, 0, None).0 == db
  {
  }

  /** Two ends of one transfer, of which the first is taken in at the second's expense. */
  lemma FirstEndWins(cfg: Cluster, db: Database, id: nat, first: Event, second: Event)
    requires AttemptEvents(db, id, [first, second]) && Ending(db, id, first) && Ending(db, id, second)
    requires first.kind == Finished || second.kind == Finished
    requires first.kind == FailedEvent ==> SendsBack(cfg, db.transfers[id], first)
    ensures !EndsWithTheLast(cfg, db, id, [first, second])
  {
    var t, events := db.transfers[id], [first, second];
    assert events[0] == first && events[1] == second;
    assert EndsAt(cfg, t, db.filesets[t.filesetId].state, events, 0);
  }

  lemma EndsDiffer(cfg: Cluster, db: Database, id: nat, first: Event, second: Event)
    requires AttemptEvents(db, id, [first, second]) && Ending(db, id, first) && Ending(db, id, second)
    requires first.kind != second.kind
    requires SendsBack(cfg, db.transfers[id], if first.kind == FailedEvent then first else second)
    ensures var events := [first, second];
      AllAgree(cfg, db, id, events) && SomeComplete(cfg, db, events) && !SameAsInOrder(cfg, db, id, events)
    ensures Delivered(cfg, db, Ordered([first, second])) == ApplyEvent(cfg, db, first, 0, None).0
    ensures Delivered(cfg, db, [Delivery(second, 0, None)]) == ApplyEvent(cfg, db, second, 0, None).0
  {
    var events, d, d' := [first, second], Delivery(first, 0, None), Delivery(second, 0, None);
    assert events[0] == first && events[1] == second && events[0].sequence < events[1].sequence;
    assert Ordered(events) == [d, d'];
    EndTaken(cfg, db, id, first);
    EndTaken(cfg, db, id, second);
    OneDelivered(cfg, db, d');
    TwoDelivered(cfg, db, d, d');
    EndRefused(cfg, ApplyEvent(cfg, db, first, 0, None).0, second);
    assert [d'][0].event == LastOf(events);
    assert Complete(cfg, db, events, [d']);
    AgreeIff(cfg, db, id, events);
    FirstEndWins(cfg, db, id, first, second);
    OrderDoesNotMatterIff(cfg, db, id, events);
  }

  /** A daemon reports a failure that is retried and then that the work has finished: in order the transfer is back in
      the queue, while any delivery that takes in the finish leaves it SUCCEEDED. */
  lemma FailedThenFinished(cfg: Cluster, db: Database, id: nat, failed: Event, finished: Event)
    requires AttemptEvents(db, id, [failed, finished]) && Ending(db, id, failed) && Ending(db, id, finished)
    requires finished.kind == Finished && SendsBack(cfg, db.transfers[id], failed)
    ensures var events := [failed, finished];
      AllAgree(cfg, db, id, events) && SomeComplete(cfg, db, events) && !SameAsInOrder(cfg, db, id, events)
    ensures var inOrder := Delivered(cfg, db, Ordered([failed, finished])).transfers;
      id in inOrder && inOrder[id].state == Submitted && inOrder[id].attempt == db.transfers[id].attempt + 1
    ensures var alone := Delivered(cfg, db, [Delivery(finished, 0, None)]).transfers;
      id in alone && alone[id].state == Succeeded
  {
    EndsDiffer(cfg, db, id, failed, finished);
    EndTaken(cfg, db, id, failed);
    EndTaken(cfg, db, id, finished);
  }

  /** It reports that the work has finished and then a failure: in order the failure is ignored and the transfer has
      SUCCEEDED, while on its own the failure sends it back to the queue. */
  lemma FinishedThenFailed(cfg: Cluster, db: Database, id: nat, finished: Event, failed: Event)
    requires AttemptEvents(db, id, [finished, failed]) && Ending(db, id, finished) && Ending(db, id, failed)
    requires finished.kind == Finished && SendsBack(cfg, db.transfers[id], failed)
    ensures var events := [finished, failed];
      AllAgree(cfg, db, id, events) && SomeComplete(cfg, db, events) && !SameAsInOrder(cfg, db, id, events)
    ensures var inOrder := Delivered(cfg, db, Ordered([finished, failed])).transfers;
      id in inOrder && inOrder[id].state == Succeeded
    ensures var alone := Delivered(cfg, db, [Delivery(failed, 0, None)]).transfers;
      id in alone && alone[id].state == Submitted && alone[id].attempt == db.transfers[id].attempt + 1
  {
    EndsDiffer(cfg, db, id, finished, failed);
    EndTaken(cfg, db, id, finished);
    EndTaken(cfg, db, id, failed);
  }
}
