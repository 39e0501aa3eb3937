/** Redelivered, reordered and lost events. */
module EventRuns {
  import opened Options
  import opened Transfers
  import opened Tables
  import opened Releases
  import opened Events
  import opened Runs
  import opened FilesetRuns
  import FS = Filesets

  // ---- An event accepted once ----

  /** Everything an event with this number could still do to its transfer has been done. */
  ghost predicate Spent(db: Database, e: Event) {
    && e.transferId < db.nextTransfer
    && (e.transferId in db.transfers ==> e.sequence <= db.transfers[e.transferId].lastSequence)
  }

  lemma AcceptedIsSpent(cfg: Cluster, db: Database, e: Event, now: int, store: Option<DeleteAnswer>)
    requires Sound(cfg, db) && ApplyEvent(cfg, db, e, now, store).1 == Done
    ensures Spent(ApplyEvent(cfg, db, e, now, store).0, e)
  {
    var t := db.transfers[e.transferId];
    var accepted := Accepted(cfg, db, e, now);
    assert accepted.transfers[e.transferId].lastSequence == e.sequence;
    if store.Some? { ReleaseAdds(accepted, t.filesetId, now, store.value); }
  }

  lemma SpentChangesNothing(cfg: Cluster, db: Database, e: Event, now: int, store: Option<DeleteAnswer>)
    requires Spent(db, e)
    ensures ApplyEvent(cfg, db, e, now, store).0 == db
    ensures ApplyEvent(cfg, db, e, now, store).1 == (if e.transferId in db.transfers then Ignored else Raised(NotFound))
  {
  }

  lemma StaysSpent(cfg: Cluster, db: Database, a: Action, e: Event)
    requires Sound(cfg, db) && Spent(db, e)
    ensures Spent(Step(cfg, db, a).0, e)
  {
    StepMovesTable(cfg, db, a);
    var db' := Step(cfg, db, a).0;
    if e.transferId in db.transfers && e.transferId in db'.transfers {
      assert RowMoves(cfg, db.transfers[e.transferId], db'.transfers[e.transferId], a.DoSchedule?);
    }
  }

  lemma {:induction false} SpentForever(cfg: Cluster, db: Database, run: seq<Action>, e: Event)
    requires Sound(cfg, db) && Spent(db, e)
    ensures Spent(After(cfg, db, run), e)
  {
    if run != [] {
      var n := |run| - 1;
      SpentForever(cfg, db, run[..n], e);
      RunsAreSound(cfg, db, run[..n]);
      StaysSpent(cfg, After(cfg, db, run[..n]), run[n], e);
    }
  }

  lemma SpentEventLater(cfg: Cluster, db: Database, run: seq<Action>, e: Event, later: int, again: Option<DeleteAnswer>)
    requires Sound(cfg, db) && Spent(db, e)
    ensures ApplyEvent(cfg, After(cfg, db, run), e, later, again).0 == After(cfg, db, run)
  {
    SpentForever(cfg, db, run, e);
    SpentChangesNothing(cfg, After(cfg, db, run), e, later, again);
  }

  lemma EventKeepsSound(cfg: Cluster, db: Database, e: Event, now: int, store: Option<DeleteAnswer>)
    requires Sound(cfg, db)
    ensures Sound(cfg, ApplyEvent(cfg, db, e, now, store).0)
  {
    EventMovesTable(cfg, db, e, now, store);
    MovesKeepRowsOk(cfg, db, ApplyEvent(cfg, db, e, now, store).0, false);
    EventKeepsLinks(cfg, db, e, now, store);
  }

  /** An event accepted once changes nothing when it is delivered again at any later point of any run. */
  lemma RedeliveryChangesNothing(cfg: Cluster, db: Database, e: Event, now: int, store: Option<DeleteAnswer>,
                                 run: seq<Action>, later: int, again: Option<DeleteAnswer>)
    requires Sound(cfg, db) && ApplyEvent(cfg, db, e, now, store).1 == Done
    ensures var db' := After(cfg, ApplyEvent(cfg, db, e, now, store).0, run);
      ApplyEvent(cfg, db', e, later, again).0 == db'
  {
    AcceptedIsSpent(cfg, db, e, now, store);
    EventKeepsSound(cfg, db, e, now, store);
    SpentEventLater(cfg, ApplyEvent(cfg, db, e, now, store).0, run, e, later, again);
  }

  // ---- Erasing redeliveries ----

  /** The events a run accepts. */
  ghost function AcceptedIn(cfg: Cluster, db: Database, run: seq<Action>): set<Event> {
    if run == [] then {}
    else
      var n := |run| - 1;
      AcceptedIn(cfg, db, run[..n])
      + (if run[n].DoEvent? && Step(cfg, After(cfg, db, run[..n]), run[n]).1 == Done then {run[n].event} else {})
  }

  /** The run without the deliveries of events it had accepted before. */
  ghost function Erased(cfg: Cluster, db: Database, run: seq<Action>): seq<Action> {
    if run == [] then []
    else
      var n := |run| - 1;
      Erased(cfg, db, run[..n])
      + (if run[n].DoEvent? && run[n].event in AcceptedIn(cfg, db, run[..n]) then [] else [run[n]])
  }

  lemma {:induction false} AcceptedAreSpent(cfg: Cluster, db: Database, run: seq<Action>, e: Event)
    requires Sound(cfg, db) && e in AcceptedIn(cfg, db, run)
    ensures Spent(After(cfg, db, run), e)
  {
    var n := |run| - 1;
    var before := After(cfg, db, run[..n]);
    RunsAreSound(cfg, db, run[..n]);
    if e in AcceptedIn(cfg, db, run[..n]) {
      AcceptedAreSpent(cfg, db, run[..n], e);
      StaysSpent(cfg, before, run[n], e);
    } else {
      AcceptedIsSpent(cfg, before, e, run[n].now, run[n].store);
    }
  }

  /** Erasing every redelivery of an accepted event gives the same transfers, filesets, points and releases. */
  lemma {:induction false} ErasingRedeliveries(cfg: Cluster, db: Database, run: seq<Action>)
    requires Sound(cfg, db)
    ensures After(cfg, db, Erased(cfg, db, run)) == After(cfg, db, run)
  {
    if run != [] {
      var n := |run| - 1;
      ErasingRedeliveries(cfg, db, run[..n]);
      var kept := Erased(cfg, db, run[..n]);
      if run[n].DoEvent? && run[n].event in AcceptedIn(cfg, db, run[..n]) {
        AcceptedAreSpent(cfg, db, run[..n], run[n].event);
        SpentChangesNothing(cfg, After(cfg, db, run[..n]), run[n].event, run[n].now, run[n].store);
        assert kept + [] == kept;
      } else {
        assert (kept + [run[n]])[..|kept|] == kept;
      }
    }
  }

  // ---- The events of one attempt, in any order ----

  /** One delivery: the event, the controller's clock and what a delete answers if it comes to one. */
  datatype Delivery = Delivery(event: Event, now: int, store: Option<DeleteAnswer>)

  ghost function Delivered(cfg: Cluster, db: Database, ds: seq<Delivery>): Database {
    if ds == [] then db
    else
      var d := ds[|ds| - 1];
      ApplyEvent(cfg, Delivered(cfg, db, ds[..|ds| - 1]), d.event, d.now, d.store).0
  }

  ghost predicate Takes(cfg: Cluster, db: Database, ds: seq<Delivery>, k: nat)
    requires k < |ds|
  {
    ApplyEvent(cfg, Delivered(cfg, db, ds[..k]), ds[k].event, ds[k].now, ds[k].store).1 == Done
  }

  /** What a daemon may report about one attempt of a transfer it has, as numbered: anything at all, and at last that it
      finished or failed. */
  ghost predicate AttemptEvents(db: Database, id: nat, events: seq<Event>) {
    && id in db.transfers && id < db.nextTransfer && db.transfers[id].filesetId in db.filesets
    && InFlight(db.transfers[id].state) && db.transfers[id].bytesDone <= db.transfers[id].bytesTotal
    && events != []
    && (forall k :: 0 <= k < |events| ==> events[k].transferId == id)
    && (forall j, k :: 0 <= j < k < |events| ==> events[j].sequence < events[k].sequence)
    && LastOf(events).kind in {Finished, FailedEvent}
  }

  function LastOf(events: seq<Event>): Event
    requires events != []
  {
    events[|events| - 1]
  }

  /** The bytes it reports can be stored. */
  predicate Brings(t: Transfer, e: Event) {
    e.bytesDone <= 0 || t.bytesTotal > 0
  }

  /** A failure that would send this attempt back to the queue. */
  predicate SendsBack(cfg: Cluster, t: Transfer, e: Event) {
    e.kind == FailedEvent && e.sequence > t.lastSequence && Brings(t, e) && Retries(cfg, t.attempt, e.failure)
  }

  ghost predicate SentBackEarlier(cfg: Cluster, t: Transfer, events: seq<Event>)
    requires events != []
  {
    exists k :: 0 <= k < |events| - 1 && SendsBack(cfg, t, events[k])
  }

  /** What the row shows of a transfer that ended with `last` in a given attempt. */
  ghost predicate Ended(cfg: Cluster, t: Transfer, attempt: nat, last: Event, u: Transfer) {
    var retrying := last.kind == FailedEvent && Retries(cfg, attempt, last.failure);
    && u.lastSequence == last.sequence
    && u.attempt == attempt + (if retrying then 1 else 0)
    && u.state == (if last.kind == Finished then Succeeded else if retrying then Submitted else Failed)
    && u.finishedAt == (if retrying then None else Some(last.at))
    && u.errorCode == (if last.kind == FailedEvent then last.failure else t.errorCode)
    && u.errorDetail == (if last.kind == Finished then t.errorDetail
                         else if last.message != "" then Some(last.message) else None)
  }

  /** Where a row and its fileset can be while the last event is outstanding: under way as they were, back in the queue,
      failed, or done. */
  ghost predicate StageOk(t: Transfer, state: FS.FilesetState, u: Transfer, state': FS.FilesetState) {
    match u.state
    case Submitted => u.attempt > t.attempt && state' in {state, FS.Failed}
    case Assigned => u.attempt == t.attempt && state' == state && SameEnd(t, u)
    case Running => u.attempt == t.attempt && state' == state && SameEnd(t, u)
    case Failed => state' == FS.Failed
    case Succeeded => state' in {FS.Ready, FS.Releasing, FS.Released, FS.Failed}
    case Cancelled => false
  }

  ghost predicate SameEnd(t: Transfer, u: Transfer) {
    u.finishedAt == t.finishedAt && u.errorCode == t.errorCode && u.errorDetail == t.errorDetail
  }

  ghost predicate Outstanding(cfg: Cluster, db: Database, id: nat, events: seq<Event>, db': Database)
    requires AttemptEvents(db, id, events)
  {
    && id in db'.transfers && id < db'.nextTransfer && db.transfers[id].filesetId in db'.filesets
    && var t, u := db.transfers[id], db'.transfers[id];
       && SameJob(t, u) && u.bytesDone <= u.bytesTotal
       && (u.lastSequence == t.lastSequence || t.lastSequence < u.lastSequence < LastOf(events).sequence)
       && u.attempt >= t.attempt && (u.attempt > t.attempt ==> SentBackEarlier(cfg, t, events))
       && StageOk(t, db.filesets[t.filesetId].state, u, db'.filesets[t.filesetId].state)
  }

  /** The last event was taken in, in some attempt of those the earlier events can have brought about. */
  ghost predicate Closed(cfg: Cluster, db: Database, id: nat, events: seq<Event>, db': Database, attempt: nat)
    requires AttemptEvents(db, id, events)
  {
    id in db'.transfers && Ended(cfg, db.transfers[id], attempt, LastOf(events), db'.transfers[id])
      && AttemptOk(cfg, db, id, events, attempt)
  }

  ghost predicate AttemptOk(cfg: Cluster, db: Database, id: nat, events: seq<Event>, attempt: nat)
    requires AttemptEvents(db, id, events)
  {
    attempt == db.transfers[id].attempt || (attempt > db.transfers[id].attempt && EndsVary(cfg, db, id, events))
  }

  /** What lets two deliveries that both take in the last event end differently: it is a failure that counts; before it
      there is another that sends the transfer back to the queue; and the last can still be taken in after that, as one
      more retry or because the fileset can be FAILED. (What delivery in order leaves is another matter: it need not
      take in the last event at all.) */
  ghost predicate EndsVary(cfg: Cluster, db: Database, id: nat, events: seq<Event>)
    requires AttemptEvents(db, id, events)
  {
    var t, last := db.transfers[id], LastOf(events);
    && last.kind == FailedEvent && last.sequence > t.lastSequence && Brings(t, last)
    && SentBackEarlier(cfg, t, events)
    && (Retries(cfg, t.attempt + 1, last.failure) || FS.Legal(db.filesets[t.filesetId].state, FS.Failed))
  }

  lemma FewerRetriesLater(cfg: Cluster, early: nat, late: nat, failure: Option<string>)
    requires early <= late && Retries(cfg, late, failure)
    ensures Retries(cfg, early, failure)
  {
  }

  /** A report that is taken in leaves the row as Settled says, and the fileset READY, FAILED or as it was. */
  lemma TakenIn(cfg: Cluster, db: Database, e: Event, now: int, store: Option<DeleteAnswer>)
    requires Objection(cfg, db, e).None? && e.transferId < db.nextTransfer
    ensures var t, after := db.transfers[e.transferId], ApplyEvent(cfg, db, e, now, store).0;
      var retrying := e.kind == FailedEvent && Retries(cfg, t.attempt, e.failure);
      && e.transferId in after.transfers && after.transfers[e.transferId] == Settled(cfg, t, e, retrying, now)
      && e.transferId < after.nextTransfer && t.filesetId in after.filesets
      && (e.kind == Finished ==> after.filesets[t.filesetId].state in {FS.Ready, FS.Releasing, FS.Released, FS.Failed})
      && (e.kind == FailedEvent && !retrying ==> after.filesets[t.filesetId].state == FS.Failed)
      && (e.kind != Finished && (e.kind == FailedEvent ==> retrying)
          ==> after.filesets[t.filesetId].state == db.filesets[t.filesetId].state)
  {
    if store.Some? { ReleaseAdds(Accepted(cfg, db, e, now), db.transfers[e.transferId].filesetId, now, store.value); }
  }

  /** An event before the last leaves the last outstanding. */
  lemma EarlierEvent(cfg: Cluster, db: Database, id: nat, events: seq<Event>, db': Database, k: nat, now: int,
                     store: Option<DeleteAnswer>)
    requires AttemptEvents(db, id, events) && k < |events| - 1 && Outstanding(cfg, db, id, events, db')
    ensures Outstanding(cfg, db, id, events, ApplyEvent(cfg, db', events[k], now, store).0)
  {
    var e, t, u := events[k], db.transfers[id], db'.transfers[id];
    if Objection(cfg, db', e).None? {
      TakenIn(cfg, db', e, now, store);
      if e.kind == FailedEvent && Retries(cfg, u.attempt, e.failure) {
        FewerRetriesLater(cfg, t.attempt, u.attempt, e.failure);
        assert SendsBack(cfg, t, e);
      }
    }
  }

  /** Taken in, the last event shows in the row as Ended says. */
  lemma LastShows(cfg: Cluster, db: Database, id: nat, events: seq<Event>, db': Database, now: int,
                  store: Option<DeleteAnswer>)
    requires AttemptEvents(db, id, events) && Outstanding(cfg, db, id, events, db')
      && Objection(cfg, db', LastOf(events)).None?
    ensures var after := ApplyEvent(cfg, db', LastOf(events), now, store).0;
      id in after.transfers
        && Ended(cfg, db.transfers[id], db'.transfers[id].attempt, LastOf(events), after.transfers[id])
  {
    TakenIn(cfg, db', LastOf(events), now, store);
  }

  lemma LastEvent(cfg: Cluster, db: Database, id: nat, events: seq<Event>, db': Database, now: int,
                  store: Option<DeleteAnswer>)
    requires AttemptEvents(db, id, events) && Outstanding(cfg, db, id, events, db')
    ensures var after := ApplyEvent(cfg, db', LastOf(events), now, store);
      if after.1 == Done then Closed(cfg, db, id, events, after.0, db'.transfers[id].attempt) else after.0 == db'
  {
    if Objection(cfg, db', LastOf(events)).None? {
      LastShows(cfg, db, id, events, db', now, store);
      LastInAttempt(cfg, db, id, events, db');
    }
  }

  lemma LastInAttempt(cfg: Cluster, db: Database, id: nat, events: seq<Event>, db': Database)
    requires AttemptEvents(db, id, events) && Outstanding(cfg, db, id, events, db')
      && Objection(cfg, db', LastOf(events)).None?
    ensures AttemptOk(cfg, db, id, events, db'.transfers[id].attempt)
  {
    var e, t, u := LastOf(events), db.transfers[id], db'.transfers[id];
    if u.attempt > t.attempt && Retries(cfg, u.attempt, e.failure) {
      FewerRetriesLater(cfg, t.attempt + 1, u.attempt, e.failure);
    }
  }

  lemma AfterTheEnd(cfg: Cluster, db: Database, id: nat, events: seq<Event>, attempt: nat, db': Database, e: Event,
                    now: int, store: Option<DeleteAnswer>)
    requires AttemptEvents(db, id, events) && Closed(cfg, db, id, events, db', attempt) && e in events
    ensures ApplyEvent(cfg, db', e, now, store) == (db', Ignored)
  {
  }

  ghost predicate FromAttempt(events: seq<Event>, ds: seq<Delivery>) {
    forall k :: 0 <= k < |ds| ==> ds[k].event in events
  }

  /** The delivery takes in the last event at some point. */
  ghost predicate TakesLast(cfg: Cluster, db: Database, events: seq<Event>, ds: seq<Delivery>)
    requires events != []
  {
    exists k :: 0 <= k < |ds| && ds[k].event == LastOf(events) && Takes(cfg, db, ds, k)
  }

  /** However the events arrive, either the last is outstanding and was never taken in, or the
      row shows how it ended. */
  lemma {:induction false} Delivering(cfg: Cluster, db: Database, id: nat, events: seq<Event>, ds: seq<Delivery>)
      returns (attempt: nat)
    requires AttemptEvents(db, id, events) && FromAttempt(events, ds)
    ensures if TakesLast(cfg, db, events, ds) then Closed(cfg, db, id, events, Delivered(cfg, db, ds), attempt)
            else Outstanding(cfg, db, id, events, Delivered(cfg, db, ds))
  {
    if ds == [] {
      attempt := db.transfers[id].attempt;
    } else {
      var n := |ds| - 1;
      attempt := Delivering(cfg, db, id, events, ds[..n]);
      var d, db' := ds[n], Delivered(cfg, db, ds[..n]);
      TakesLater(cfg, db, events, ds);
      var j :| 0 <= j < |events| && events[j] == d.event;
      if TakesLast(cfg, db, events, ds[..n]) {
        AfterTheEnd(cfg, db, id, events, attempt, db', d.event, d.now, d.store);
      } else if j < |events| - 1 {
        EarlierEvent(cfg, db, id, events, db', j, d.now, d.store);
      } else {
        LastEvent(cfg, db, id, events, db', d.now, d.store);
        if ApplyEvent(cfg, db', d.event, d.now, d.store).1 == Done { attempt := db'.transfers[id].attempt; }
      }
    }
  }

  lemma TakesPrefix(cfg: Cluster, db: Database, ds: seq<Delivery>, n: nat, k: nat)
    requires k < n <= |ds|
    ensures Takes(cfg, db, ds[..n], k) <==> Takes(cfg, db, ds, k)
  {
    assert ds[..n][..k] == ds[..k];
  }

  lemma TakesLater(cfg: Cluster, db: Database, events: seq<Event>, ds: seq<Delivery>)
    requires events != [] && ds != []
    ensures var n := |ds| - 1;
      TakesLast(cfg, db, events, ds)
      <==> TakesLast(cfg, db, events, ds[..n]) || (ds[n].event == LastOf(events) && Takes(cfg, db, ds, n))
  {
    var n := |ds| - 1;
    if k :| 0 <= k < n && ds[..n][k].event == LastOf(events) && Takes(cfg, db, ds[..n], k) {
      TakesPrefix(cfg, db, ds, n, k);
      assert ds[k].event == LastOf(events);
    }
    if k :| 0 <= k < |ds| && ds[k].event == LastOf(events) && Takes(cfg, db, ds, k) {
      if k < n {
        TakesPrefix(cfg, db, ds, n, k);
        assert ds[..n][k].event == LastOf(events);
      }
    }
  }

  /** The state, attempt, last sequence, finish time and error a row shows. */
  ghost predicate SameOutcome(u: Transfer, v: Transfer) {
    && u.state == v.state && u.attempt == v.attempt && u.lastSequence == v.lastSequence
    && u.finishedAt == v.finishedAt && u.errorCode == v.errorCode && u.errorDetail == v.errorDetail
  }

  /** A delivery of events of the attempt - in any order, with losses and repetitions - that takes in the last. */
  ghost predicate Complete(cfg: Cluster, db: Database, events: seq<Event>, ds: seq<Delivery>)
    requires events != []
  {
    FromAttempt(events, ds) && TakesLast(cfg, db, events, ds)
  }

  /** Every complete delivery ends alike. */
  ghost predicate AllAgree(cfg: Cluster, db: Database, id: nat, events: seq<Event>)
    requires AttemptEvents(db, id, events)
  {
    forall ds, ds' :: Complete(cfg, db, events, ds) && Complete(cfg, db, events, ds') ==>
      && id in Delivered(cfg, db, ds).transfers && id in Delivered(cfg, db, ds').transfers
      && SameOutcome(Delivered(cfg, db, ds).transfers[id], Delivered(cfg, db, ds').transfers[id])
  }

  lemma AgreeUnlessEndsVary(cfg: Cluster, db: Database, id: nat, events: seq<Event>)
    requires AttemptEvents(db, id, events) && !EndsVary(cfg, db, id, events)
    ensures AllAgree(cfg, db, id, events)
  {
    forall ds, ds' | Complete(cfg, db, events, ds) && Complete(cfg, db, events, ds')
      ensures && id in Delivered(cfg, db, ds).transfers && id in Delivered(cfg, db, ds').transfers
              && SameOutcome(Delivered(cfg, db, ds).transfers[id], Delivered(cfg, db, ds').transfers[id])
    {
      var attempt := Delivering(cfg, db, id, events, ds);
      var attempt' := Delivering(cfg, db, id, events, ds');
    }
  }

  lemma OneDelivered(cfg: Cluster, db: Database, d: Delivery)
    ensures Delivered(cfg, db, [d]) == ApplyEvent(cfg, db, d.event, d.now, d.store).0
    ensures Takes(cfg, db, [d], 0) <==> ApplyEvent(cfg, db, d.event, d.now, d.store).1 == Done
  {
    assert [d][..0] == [];
  }

  lemma TwoDelivered(cfg: Cluster, db: Database, d: Delivery, d': Delivery)
    ensures var db' := ApplyEvent(cfg, db, d.event, d.now, d.store).0;
      && Delivered(cfg, db, [d, d']) == ApplyEvent(cfg, db', d'.event, d'.now, d'.store).0
      && (Takes(cfg, db, [d, d'], 1) <==> ApplyEvent(cfg, db', d'.event, d'.now, d'.store).1 == Done)
  {
    OneDelivered(cfg, db, d);
    assert [d, d'][..1] == [d];
  }

  /** The last failure on its own. */
  lemma OnlyTheLast(cfg: Cluster, db: Database, id: nat, events: seq<Event>, d: Delivery)
    requires AttemptEvents(db, id, events) && EndsVary(cfg, db, id, events) && d.event == LastOf(events)
    ensures Complete(cfg, db, events, [d])
    ensures Closed(cfg, db, id, events, Delivered(cfg, db, [d]), db.transfers[id].attempt)
  {
    var t := db.transfers[id];
    if Retries(cfg, t.attempt + 1, d.event.failure) {
      FewerRetriesLater(cfg, t.attempt, t.attempt + 1, d.event.failure);
    }
    assert Objection(cfg, db, d.event).None?;
    OneDelivered(cfg, db, d);
    assert [d][0].event == LastOf(events);
    assert Outstanding(cfg, db, id, events, db);
    LastEvent(cfg, db, id, events, db, d.now, d.store);
  }

  /** An earlier failure that sends the transfer back, and then the last. */
  lemma SentBackFirst(cfg: Cluster, db: Database, id: nat, events: seq<Event>, k: nat, d: Delivery, d': Delivery)
    requires AttemptEvents(db, id, events) && EndsVary(cfg, db, id, events)
    requires k < |events| - 1 && SendsBack(cfg, db.transfers[id], events[k]) && d.event == events[k]
      && d'.event == LastOf(events)
    ensures Complete(cfg, db, events, [d, d'])
    ensures Closed(cfg, db, id, events, Delivered(cfg, db, [d, d']), db.transfers[id].attempt + 1)
  {
    assert Objection(cfg, db, d.event).None?;
    TakenIn(cfg, db, d.event, d.now, d.store);
    var db' := ApplyEvent(cfg, db, d.event, d.now, d.store).0;
    assert Outstanding(cfg, db, id, events, db);
    EarlierEvent(cfg, db, id, events, db, k, d.now, d.store);
    assert db'.transfers[id].state == Submitted && db'.transfers[id].attempt == db.transfers[id].attempt + 1;
    assert Objection(cfg, db', d'.event).None?;
    LastEvent(cfg, db, id, events, db', d'.now, d'.store);
    TwoDelivered(cfg, db, d, d');
    assert [d, d'][1].event == LastOf(events);
  }

  lemma AttemptsShow(cfg: Cluster, t: Transfer, attempt: nat, last: Event, u: Transfer, v: Transfer)
    requires last.kind == FailedEvent && Ended(cfg, t, attempt, last, u) && Ended(cfg, t, attempt + 1, last, v)
    ensures !SameOutcome(u, v)
  {
  }

  /** Every delivery that takes in the last event leaves the same outcome if and only if no earlier event of the attempt
      is a failure that sends the transfer back and after which the last, a failure too, can still be taken in. */
  lemma AgreeIff(cfg: Cluster, db: Database, id: nat, events: seq<Event>)
    requires AttemptEvents(db, id, events)
    ensures AllAgree(cfg, db, id, events) <==> !EndsVary(cfg, db, id, events)
  {
    if EndsVary(cfg, db, id, events) {
      var k :| 0 <= k < |events| - 1 && SendsBack(cfg, db.transfers[id], events[k]);
      var d, d' := Delivery(events[k], 0, None), Delivery(LastOf(events), 0, None);
      OnlyTheLast(cfg, db, id, events, d');
      SentBackFirst(cfg, db, id, events, k, d, d');
      var u, v := Delivered(cfg, db, [d']).transfers[id], Delivered(cfg, db, [d, d']).transfers[id];
      AttemptsShow(cfg, db.transfers[id], db.transfers[id].attempt, LastOf(events), u, v);
    } else {
      AgreeUnlessEndsVary(cfg, db, id, events);
    }
  }

  /** A daemon that is shut down reports a failure of its own, and then the one its work ends with. Where the first is
      retried and the fileset can be FAILED, it matters whether the first arrives. */
  lemma TwoFailures(cfg: Cluster, db: Database, id: nat, first: Event, second: Event)
    requires AttemptEvents(db, id, [first, second]) && second.kind == FailedEvent
    requires SendsBack(cfg, db.transfers[id], first) && Brings(db.transfers[id], second)
    requires FS.Legal(db.filesets[db.transfers[id].filesetId].state, FS.Failed)
    ensures !AllAgree(cfg, db, id, [first, second])
  {
    var events := [first, second];
    assert events[0] == first && SendsBack(cfg, db.transfers[id], events[0]);
    assert events[0].sequence < events[1].sequence;
    AgreeIff(cfg, db, id, events);
  }

  // ---- A daemon that was restarted ----

  /** A daemon that forgot its counters numbers a transfer's reports from one again. The controller hears none of them
      until there have been as many as it had numbered before; whatever they say, the row stays as it was. */
  lemma {:induction false} RestartedDaemonIsUnheard(cfg: Cluster, db: Database, id: nat, ds: seq<Delivery>)
    requires id in db.transfers && |ds| <= db.transfers[id].lastSequence
    requires forall k :: 0 <= k < |ds| ==> ds[k].event.transferId == id && ds[k].event.sequence == k + 1
    ensures Delivered(cfg, db, ds) == db
  {
    if ds != [] { RestartedDaemonIsUnheard(cfg, db, id, ds[..|ds| - 1]); }
  }

  /** The row as if nothing had ever been reported of it. */
  function NeverHeardOf(db: Database, id: nat): Database
    requires id in db.transfers
  {
    db.(transfers := db.transfers[id := db.transfers[id].(lastSequence := 0)])
  }

  /** The next report, whatever it is, is judged as a controller would that had never heard of the transfer. */
  lemma HeardAgain(cfg: Cluster, db: Database, id: nat, ds: seq<Delivery>, d: Delivery)
    requires id in db.transfers && |ds| == db.transfers[id].lastSequence
    requires forall k :: 0 <= k < |ds| ==> ds[k].event.transferId == id && ds[k].event.sequence == k + 1
    requires d.event.transferId == id && d.event.sequence == |ds| + 1
    ensures Delivered(cfg, db, ds + [d]) == ApplyEvent(cfg, db, d.event, d.now, d.store).0
    ensures Objection(cfg, db, d.event) == Objection(cfg, NeverHeardOf(db, id), d.event)
    ensures Objection(cfg, db, d.event).None?
      ==> Accepted(cfg, db, d.event, d.now) == Accepted(cfg, NeverHeardOf(db, id), d.event, d.now)
  {
    RestartedDaemonIsUnheard(cfg, db, id, ds);
    assert (ds + [d])[..|ds|] == ds;
    SameObjection(cfg, db, d.event);
    if Objection(cfg, db, d.event).None? { SameWhenHeard(cfg, db, d.event, d.now); }
  }

  lemma SameObjection(cfg: Cluster, db: Database, e: Event)
    requires e.transferId in db.transfers && e.sequence > db.transfers[e.transferId].lastSequence >= 0
    ensures Objection(cfg, db, e) == Objection(cfg, NeverHeardOf(db, e.transferId), e)
  {
    var t := db.transfers[e.transferId];
    assert Progressed(t, e) == Progressed(t.(lastSequence := 0), e);
  }

  lemma SameWhenHeard(cfg: Cluster, db: Database, e: Event, now: int)
    requires Objection(cfg, db, e).None? && Objection(cfg, NeverHeardOf(db, e.transferId), e).None?
    ensures Accepted(cfg, db, e, now) == Accepted(cfg, NeverHeardOf(db, e.transferId), e, now)
  {
    var t, unheard := db.transfers[e.transferId], NeverHeardOf(db, e.transferId);
    assert Progressed(t, e) == Progressed(t.(lastSequence := 0), e);
    assert Accepted(cfg, db, e, now).transfers == Accepted(cfg, unheard, e, now).transfers;
  }
}
