/** The order transfers are offered in (src/stashd/domain/priority.py). */
module Priority {
  import opened FairShare
  import opened Scheduling

  /** A transfer with the points its user owes: the rest of its sort key is its own. */
  datatype Ranked = Ranked(points: real, entry: QueuedTransfer)

  /** The order of the keys (points, submitted_at, id). */
  predicate AtOrBefore(a: Ranked, b: Ranked) {
    || a.points < b.points
    || (a.points == b.points
        && (|| a.entry.submittedAt < b.entry.submittedAt
            || (a.entry.submittedAt == b.entry.submittedAt && a.entry.id <= b.entry.id)))
  }

  function AccountOf(accounts: map<string, Account>, user: string, now: int): Account {
    if user in accounts then accounts[user] else Account(0.0, now)
  }

  function RankOf(q: QueuedTransfer, accounts: map<string, Account>, decay: Decay, now: int): Ranked {
    Ranked(Decayed(AccountOf(accounts, q.user, now), now, decay).points, q)
  }

  function RankAll(transfers: seq<QueuedTransfer>, accounts: map<string, Account>, decay: Decay,
                   now: int): (ranks: seq<Ranked>)
    ensures |ranks| == |transfers|
    ensures forall i :: 0 <= i < |ranks| ==> ranks[i] == RankOf(transfers[i], accounts, decay, now)
  {
    seq(|transfers|, i requires 0 <= i < |transfers| => RankOf(transfers[i], accounts, decay, now))
  }

  function Entries(ranks: seq<Ranked>): (queue: seq<QueuedTransfer>)
    ensures |queue| == |ranks|
    ensures forall i :: 0 <= i < |queue| ==> queue[i] == ranks[i].entry
  {
    if ranks == [] then [] else [ranks[0].entry] + Entries(ranks[1..])
  }

  function Insert(r: Ranked, queue: seq<Ranked>): seq<Ranked> {
    if queue == [] then [r]
    else if AtOrBefore(r, queue[0]) then [r] + queue
    else [queue[0]] + Insert(r, queue[1..])
  }

  function Sort(ranks: seq<Ranked>): seq<Ranked> {
    if ranks == [] then [] else Insert(ranks[0], Sort(ranks[1..]))
  }

  function OrderQueue(transfers: seq<QueuedTransfer>, accounts: map<string, Account>, decay: Decay,
                      now: int): seq<QueuedTransfer> {
    Entries(Sort(RankAll(transfers, accounts, decay, now)))
  }

  ghost predicate Sorted(queue: seq<Ranked>) {
    forall i, j :: 0 <= i < j < |queue| ==> AtOrBefore(queue[i], queue[j])
  }

  lemma AtOrBeforeTransitive(a: Ranked, b: Ranked, c: Ranked)
    requires AtOrBefore(a, b) && AtOrBefore(b, c)
    ensures AtOrBefore(a, c)
  {
  }

  lemma TailMembers<T>(s: seq<T>)
    requires s != []
    ensures multiset(s) == multiset{s[0]} + multiset(s[1..])
    ensures multiset(s[1..]) == multiset(s) - multiset{s[0]}
  {
    assert s == [s[0]] + s[1..];
  }

  lemma {:induction false} InsertMembers(r: Ranked, queue: seq<Ranked>)
    ensures multiset(Insert(r, queue)) == multiset(queue) + multiset{r}
  {
    if queue != [] && !AtOrBefore(r, queue[0]) {
      InsertMembers(r, queue[1..]);
      TailMembers(queue);
      TailMembers(Insert(r, queue));
    }
  }

  lemma {:induction false} InsertEntries(r: Ranked, queue: seq<Ranked>)
    ensures multiset(Entries(Insert(r, queue))) == multiset(Entries(queue)) + multiset{r.entry}
  {
    if queue == [] || AtOrBefore(r, queue[0]) {
      EntriesOfCons(r, queue);
    } else {
      InsertEntries(r, queue[1..]);
      EntriesOfCons(queue[0], Insert(r, queue[1..]));
      EntriesOfCons(queue[0], queue[1..]);
      assert queue == [queue[0]] + queue[1..];
    }
  }

  lemma EntriesOfCons(r: Ranked, rest: seq<Ranked>)
    ensures multiset(Entries([r] + rest)) == multiset{r.entry} + multiset(Entries(rest))
  {
    assert ([r] + rest)[1..] == rest;
  }

  lemma {:induction false} InsertKeepsOrder(r: Ranked, queue: seq<Ranked>)
    requires Sorted(queue)
    ensures Sorted(Insert(r, queue))
  {
    if queue != [] {
      if AtOrBefore(r, queue[0]) {
        forall j | 0 <= j < |queue| ensures AtOrBefore(r, queue[j]) {
          if j > 0 { AtOrBeforeTransitive(r, queue[0], queue[j]); }
        }
      } else {
        InsertKeepsOrder(r, queue[1..]);
        InsertMembers(r, queue[1..]);
        var rest := Insert(r, queue[1..]);
        forall j | 0 <= j < |rest| ensures AtOrBefore(queue[0], rest[j]) {
          assert rest[j] in multiset(rest);
          assert rest[j] in queue[1..] || rest[j] == r;
        }
      }
    }
  }

  lemma {:induction false} SortSorts(ranks: seq<Ranked>)
    ensures Sorted(Sort(ranks))
  {
    if ranks != [] {
      SortSorts(ranks[1..]);
      InsertKeepsOrder(ranks[0], Sort(ranks[1..]));
    }
  }

  lemma {:induction false} SortMembers(ranks: seq<Ranked>)
    ensures multiset(Sort(ranks)) == multiset(ranks)
  {
    if ranks != [] {
      SortMembers(ranks[1..]);
      InsertMembers(ranks[0], Sort(ranks[1..]));
      TailMembers(ranks);
    }
  }

  lemma {:induction false} SortEntries(ranks: seq<Ranked>)
    ensures multiset(Entries(Sort(ranks))) == multiset(Entries(ranks))
  {
    if ranks != [] {
      SortEntries(ranks[1..]);
      InsertEntries(ranks[0], Sort(ranks[1..]));
      EntriesOfCons(ranks[0], ranks[1..]);
      assert [ranks[0]] + ranks[1..] == ranks;
    }
  }

  ghost predicate DistinctIds(transfers: seq<QueuedTransfer>) {
    forall p, q :: p in transfers && q in transfers && p.id == q.id ==> p == q
  }

  /** order_queue returns a permutation of the queue sorted by (points, submitted_at, id). */
  lemma OrderQueueSorts(transfers: seq<QueuedTransfer>, accounts: map<string, Account>, decay: Decay, now: int)
    ensures multiset(OrderQueue(transfers, accounts, decay, now)) == multiset(transfers)
    ensures Sorted(RankAll(OrderQueue(transfers, accounts, decay, now), accounts, decay, now))
  {
    var ranks := RankAll(transfers, accounts, decay, now);
    SortSorts(ranks);
    SortEntries(ranks);
    assert Entries(ranks) == transfers;
    RanksOfSort(ranks, Sort(ranks), accounts, decay, now);
  }

  lemma RanksOfSort(ranks: seq<Ranked>, sorted: seq<Ranked>, accounts: map<string, Account>, decay: Decay, now: int)
    requires sorted == Sort(ranks)
    requires forall r :: r in ranks ==> r == RankOf(r.entry, accounts, decay, now)
    ensures RankAll(Entries(sorted), accounts, decay, now) == sorted
  {
    SortMembers(ranks);
    forall i | 0 <= i < |sorted| ensures sorted[i] == RankOf(sorted[i].entry, accounts, decay, now) {
      assert sorted[i] in multiset(ranks);
    }
  }

  /** With distinct ids there is only one such permutation, so any sort returns this one. */
  lemma {:induction false} SortedIsUnique(a: seq<QueuedTransfer>, b: seq<QueuedTransfer>,
                                          accounts: map<string, Account>, decay: Decay, now: int)
    requires Sorted(RankAll(a, accounts, decay, now)) && Sorted(RankAll(b, accounts, decay, now))
    requires multiset(a) == multiset(b) && DistinctIds(a)
    ensures a == b
  {
    if a == [] {
      assert |multiset(b)| == 0;
    } else {
      assert |multiset(a)| == |multiset(b)|;
      FirstOfSorted(a, b, accounts, decay, now);
      TailMembers(a);
      TailMembers(b);
      SortedTail(a, accounts, decay, now);
      SortedTail(b, accounts, decay, now);
      SortedIsUnique(a[1..], b[1..], accounts, decay, now);
    }
  }

  lemma SortedTail(a: seq<QueuedTransfer>, accounts: map<string, Account>, decay: Decay, now: int)
    requires a != [] && Sorted(RankAll(a, accounts, decay, now))
    ensures Sorted(RankAll(a[1..], accounts, decay, now))
  {
    assert RankAll(a[1..], accounts, decay, now) == RankAll(a, accounts, decay, now)[1..];
  }

  lemma FirstOfSorted(a: seq<QueuedTransfer>, b: seq<QueuedTransfer>, accounts: map<string, Account>,
                      decay: Decay, now: int)
    requires Sorted(RankAll(a, accounts, decay, now)) && Sorted(RankAll(b, accounts, decay, now))
    requires multiset(a) == multiset(b) && DistinctIds(a) && a != [] && b != []
    ensures a[0] == b[0]
  {
    assert a[0] in multiset(b) && b[0] in multiset(a);
    var i :| 0 <= i < |b| && b[i] == a[0];
    var j :| 0 <= j < |a| && a[j] == b[0];
    var r, s := RankAll(a, accounts, decay, now), RankAll(b, accounts, decay, now);
    assert r[0] == s[i] && s[0] == r[j];
    assert i == 0 || AtOrBefore(s[0], s[i]);
    assert j == 0 || AtOrBefore(r[0], r[j]);
  }

  // ---- Decay does not reorder the queue ----

  function ScaleOne(r: Ranked, c: real): Ranked {
    Ranked(r.points * c, r.entry)
  }

  function Scale(ranks: seq<Ranked>, c: real): (scaled: seq<Ranked>)
    ensures |scaled| == |ranks|
    ensures forall i :: 0 <= i < |scaled| ==> scaled[i] == ScaleOne(ranks[i], c)
  {
    seq(|ranks|, i requires 0 <= i < |ranks| => ScaleOne(ranks[i], c))
  }

  lemma ScalingKeepsOrder(a: Ranked, b: Ranked, c: real)
    requires c > 0.0
    ensures AtOrBefore(a, b) <==> AtOrBefore(ScaleOne(a, c), ScaleOne(b, c))
  {
    assert (b.points - a.points) * c == b.points * c - a.points * c;
  }

  lemma {:induction false} InsertScaled(r: Ranked, queue: seq<Ranked>, c: real)
    requires c > 0.0
    ensures Insert(ScaleOne(r, c), Scale(queue, c)) == Scale(Insert(r, queue), c)
  {
    if queue != [] {
      ScalingKeepsOrder(r, queue[0], c);
      InsertScaled(r, queue[1..], c);
      assert Scale(queue, c)[1..] == Scale(queue[1..], c);
      assert Scale([r] + queue, c) == [ScaleOne(r, c)] + Scale(queue, c);
      assert Scale([queue[0]] + Insert(r, queue[1..]), c) == [Scale(queue, c)[0]] + Scale(Insert(r, queue[1..]), c);
    }
  }

  lemma {:induction false} SortScaled(ranks: seq<Ranked>, c: real)
    requires c > 0.0
    ensures Sort(Scale(ranks, c)) == Scale(Sort(ranks), c)
  {
    if ranks != [] {
      SortScaled(ranks[1..], c);
      assert Scale(ranks, c)[1..] == Scale(ranks[1..], c);
      InsertScaled(ranks[0], Sort(ranks[1..]), c);
    }
  }

  lemma RankLater(q: QueuedTransfer, accounts: map<string, Account>, decay: Decay, now: int, later: int)
    requires decay.Valid() && now <= later
    requires q.user in accounts ==> accounts[q.user].decayedAt <= now
    ensures RankOf(q, accounts, decay, later)
      == ScaleOne(RankOf(q, accounts, decay, now), Pow(decay.factor, later - now))
  {
    if q.user in accounts {
      DecayedTwice(accounts[q.user], now, later, decay);
      ForwardDecay(accounts[q.user], now, decay);
      ForwardDecay(Decayed(accounts[q.user], now, decay), later, decay);
    }
  }

  /** With no new charges the queue keeps its order for ever, once no account is stamped after `now`. */
  lemma OrderNeverChanges(transfers: seq<QueuedTransfer>, accounts: map<string, Account>, decay: Decay,
                          now: int, later: int)
    requires decay.Valid() && now <= later
    requires forall user :: user in accounts ==> accounts[user].decayedAt <= now
    ensures OrderQueue(transfers, accounts, decay, later) == OrderQueue(transfers, accounts, decay, now)
  {
    var c := Pow(decay.factor, later - now);
    PowPositive(decay.factor, later - now);
    forall q: QueuedTransfer ensures RankOf(q, accounts, decay, later) == ScaleOne(RankOf(q, accounts, decay, now), c) {
      RankLater(q, accounts, decay, now, later);
    }
    assert RankAll(transfers, accounts, decay, later) == Scale(RankAll(transfers, accounts, decay, now), c);
    SortScaled(RankAll(transfers, accounts, decay, now), c);
    var sorted := Sort(RankAll(transfers, accounts, decay, now));
    assert Entries(Scale(sorted, c)) == Entries(sorted);
  }
}
