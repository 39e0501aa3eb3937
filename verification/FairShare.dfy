/** What users owe for the bytes they move (src/stashd/domain/fairshare.py).

    Time is counted in ticks and points are reals. A `Decay` is the per-tick factor whose
    half-life-th power is one half, so a lazy factor 2 ** (-elapsed / half_life) is Pow(factor, elapsed).
  */
module FairShare {
  import opened Transfers

  const GIB := 1073741824

  datatype Account = Account(points: real, decayedAt: int)

  datatype Decay = Decay(factor: real, halfLife: nat) {
    ghost predicate Valid() {
      factor > 0.0 && halfLife > 0 && Pow(factor, halfLife) == 0.5
    }
  }

  function Pow(base: real, n: nat): real {
    if n == 0 then 1.0 else base * Pow(base, n - 1)
  }

  function Decayed(account: Account, now: int, decay: Decay): Account {
    if now - account.decayedAt <= 0 then account
    else Account(account.points * Pow(decay.factor, now - account.decayedAt), now)
  }

  function PointsForBytes(kind: Kind, size: nat, perGib: real): real {
    if kind.MovesData() then ((size + GIB - 1) / GIB) as real * perGib else 0.0
  }

  /** A transfer that moves data pays for every GiB it begins, a release for none. */
  lemma PointsRoundUp(kind: Kind, size: nat, perGib: real, gibs: nat)
    requires gibs * GIB >= size && (gibs == 0 || (gibs - 1) * GIB < size)
    ensures PointsForBytes(kind, size, perGib) == if kind == Release then 0.0 else gibs as real * perGib
  {
    assert (size + GIB - 1) / GIB == gibs;
  }

  function WithPoints(account: Account, delta: real, now: int, decay: Decay): Account {
    var current := Decayed(account, now, decay);
    current.(points := if current.points + delta >= 0.0 then current.points + delta else 0.0)
  }

  lemma {:induction false} PowAdd(base: real, m: nat, n: nat)
    ensures Pow(base, m + n) == Pow(base, m) * Pow(base, n)
  {
    if m > 0 {
      PowAdd(base, m - 1, n);
      assert m - 1 + n == m + n - 1;
      assert base * (Pow(base, m - 1) * Pow(base, n)) == base * Pow(base, m - 1) * Pow(base, n);
    }
  }

  lemma {:induction false} PowPositive(base: real, n: nat)
    requires base > 0.0
    ensures Pow(base, n) > 0.0
  {
    if n > 0 { PowPositive(base, n - 1); }
  }

  lemma {:induction false} PowGrows(base: real, n: nat)
    requires base >= 1.0
    ensures Pow(base, n) >= 1.0
  {
    if n > 0 { PowGrows(base, n - 1); }
  }

  lemma {:induction false} PowShrinks(base: real, n: nat)
    requires 0.0 < base < 1.0 && n > 0
    ensures Pow(base, n) < 1.0
  {
    if n > 1 {
      PowShrinks(base, n - 1);
      PowPositive(base, n - 1);
    }
  }

  lemma FactorBelowOne(decay: Decay)
    requires decay.Valid()
    ensures decay.factor < 1.0
  {
    if decay.factor >= 1.0 { PowGrows(decay.factor, decay.halfLife); }
  }

  lemma ForwardDecay(account: Account, now: int, decay: Decay)
    requires account.decayedAt <= now
    ensures Decayed(account, now, decay) == Account(account.points * Pow(decay.factor, now - account.decayedAt), now)
  {
    assert Pow(decay.factor, 0) == 1.0;
  }

  /** Points halve over a half-life, from any instant the account is already decayed to. */
  lemma PointsHalve(account: Account, now: int, decay: Decay)
    requires decay.Valid() && account.decayedAt <= now
    ensures Decayed(account, now + decay.halfLife, decay).points == Decayed(account, now, decay).points / 2.0
  {
    DecayedTwice(account, now, now + decay.halfLife, decay);
    assert Pow(decay.factor, decay.halfLife) == 0.5;
  }

  /** Decaying in two readings is decaying once, to the later of them. */
  lemma DecayedTwice(account: Account, first: int, second: int, decay: Decay)
    ensures Decayed(Decayed(account, first, decay), second, decay)
         == Decayed(account, if first <= second then second else first, decay)
  {
    var a := first - account.decayedAt;
    var b := second - first;
    if a > 0 && b > 0 {
      PowAdd(decay.factor, a, b);
      var p, x, y := account.points, Pow(decay.factor, a), Pow(decay.factor, b);
      assert a + b == second - account.decayedAt;
      assert p * x * y == p * (x * y);
    }
  }

  // ---- The lazy account against one that is decayed on every tick ----

  datatype Charge = Charge(delta: real, at: int)

  /** One sweep of the table: an account loses one tick's worth. */
  function Tick(account: Account, decay: Decay): Account {
    Account(account.points * decay.factor, account.decayedAt + 1)
  }

  /** The account a sweep on every tick has reached by `now`; a clock that steps back sweeps nothing. */
  function SweptTo(account: Account, now: int, decay: Decay): Account
    decreases now - account.decayedAt
  {
    if now <= account.decayedAt then account else SweptTo(Tick(account, decay), now, decay)
  }

  lemma {:induction false} SweptIsDecayed(account: Account, now: int, decay: Decay)
    ensures SweptTo(account, now, decay) == Decayed(account, now, decay)
    decreases now - account.decayedAt
  {
    if now > account.decayedAt {
      var next := Tick(account, decay);
      SweptIsDecayed(next, now, decay);
      var k := now - account.decayedAt;
      assert Pow(decay.factor, k) == decay.factor * Pow(decay.factor, k - 1);
      assert account.points * decay.factor * Pow(decay.factor, k - 1)
        == account.points * (decay.factor * Pow(decay.factor, k - 1));
    }
  }

  /** The stored row after a history of charges and refunds; the first one opens it. */
  function Lazily(history: seq<Charge>, decay: Decay): (a: Account)
    requires history != []
    ensures a.points >= 0.0
  {
    var last := history[|history| - 1];
    var row := if |history| == 1 then Account(0.0, last.at) else Lazily(history[..|history| - 1], decay);
    WithPoints(row, last.delta, last.at, decay)
  }

  function Eagerly(history: seq<Charge>, decay: Decay): Account
    requires history != []
  {
    var last := history[|history| - 1];
    var row := if |history| == 1 then Account(0.0, last.at) else Eagerly(history[..|history| - 1], decay);
    var swept := SweptTo(row, last.at, decay);
    if swept.points + last.delta >= 0.0 then swept.(points := swept.points + last.delta) else swept.(points := 0.0)
  }

  function LatestOf(history: seq<Charge>): int
    requires history != []
  {
    var last := history[|history| - 1].at;
    if |history| == 1 then last
    else
      var before := LatestOf(history[..|history| - 1]);
      if before <= last then last else before
  }

  /** Whatever the clock does, decaying on read and on charge is decaying on every tick up to the
      latest time seen, and nobody ever owes less than nothing. */
  lemma {:induction false} LazyIsEager(history: seq<Charge>, now: int, decay: Decay)
    requires history != []
    ensures Lazily(history, decay) == Eagerly(history, decay)
    ensures Lazily(history, decay).decayedAt == LatestOf(history)
    ensures Decayed(Lazily(history, decay), now, decay) == SweptTo(Eagerly(history, decay), now, decay)
  {
    var n := |history|;
    var last := history[n - 1];
    if n == 1 {
      SweptIsDecayed(Account(0.0, last.at), last.at, decay);
    } else {
      LazyIsEager(history[..n - 1], now, decay);
      SweptIsDecayed(Lazily(history[..n - 1], decay), last.at, decay);
    }
    SweptIsDecayed(Lazily(history, decay), now, decay);
  }

  /** Rewriting the row at time `sweep` before a charge of a positive amount at time `at` goes
      unnoticed by every later reader if and only if the charge is not stamped before the sweep. */
  lemma SweepUnnoticedIff(row: Account, sweep: int, delta: real, at: int, now: int, decay: Decay)
    requires decay.Valid() && row.points >= 0.0 && delta > 0.0
    requires row.decayedAt <= at <= now && sweep <= now
    ensures Decayed(WithPoints(Decayed(row, sweep, decay), delta, at, decay), now, decay)
         == Decayed(WithPoints(row, delta, at, decay), now, decay)
       <==> sweep <= at || sweep <= row.decayedAt
  {
    if sweep <= at {
      DecayedTwice(row, sweep, at, decay);
    } else if sweep > row.decayedAt {
      LateSweep(row, sweep, delta, at, now, decay);
    }
  }

  /** A charge on a row already swept past it misses the ticks in between. */
  lemma LateSweep(row: Account, sweep: int, delta: real, at: int, now: int, decay: Decay)
    requires decay.Valid() && row.points >= 0.0 && delta > 0.0
    requires row.decayedAt <= at < sweep <= now
    ensures Decayed(WithPoints(Decayed(row, sweep, decay), delta, at, decay), now, decay).points
          > Decayed(WithPoints(row, delta, at, decay), now, decay).points
  {
    var p, q := Decayed(row, at, decay).points, Decayed(row, sweep, decay).points;
    var g, r := Pow(decay.factor, sweep - at), Pow(decay.factor, now - sweep);
    KeepsSign(row, at, decay);
    KeepsSign(row, sweep, decay);
    ForwardDecay(row, at, decay);
    DecayedTwice(row, at, sweep, decay);
    assert Decayed(row, at, decay) == Account(p, at);
    ForwardDecay(Account(p, at), sweep, decay);
    assert Decayed(row, sweep, decay) == Account(q, sweep) && q == p * g;
    PaidAndRead(Decayed(row, sweep, decay), delta, at, now, decay, q, sweep);
    PaidAndRead(row, delta, at, now, decay, p, at);
    FactorBelowOne(decay);
    PowShrinks(decay.factor, sweep - at);
    PowPositive(decay.factor, sweep - at);
    PowPositive(decay.factor, now - sweep);
    PowAdd(decay.factor, sweep - at, now - sweep);
    assert sweep - at + (now - sweep) == now - at;
    Missed(p, q, g, r, Pow(decay.factor, now - at), delta);
  }

  lemma KeepsSign(row: Account, now: int, decay: Decay)
    requires decay.Valid() && row.points >= 0.0
    ensures Decayed(row, now, decay).points >= 0.0
  {
    if now > row.decayedAt { PowPositive(decay.factor, now - row.decayedAt); }
  }

  lemma PaidAndRead(row: Account, delta: real, at: int, now: int, decay: Decay, points: real, since: int)
    requires decay.Valid() && row.points >= 0.0 && delta > 0.0 && at <= now && row.decayedAt <= now
    requires Decayed(row, at, decay) == Account(points, since)
    ensures Decayed(WithPoints(row, delta, at, decay), now, decay).points
         == (points + delta) * Pow(decay.factor, now - since)
  {
    KeepsSign(row, at, decay);
    ForwardDecay(Account(points + delta, since), now, decay);
  }

  lemma Missed(p: real, q: real, g: real, r: real, s: real, delta: real)
    requires q == p * g && s == g * r && 0.0 < g < 1.0 && r > 0.0 && delta > 0.0
    ensures (q + delta) * r > (p + delta) * s
  {
    assert (p + delta) * s == (p * g + delta * g) * r;
    assert q + delta > p * g + delta * g;
  }
}
