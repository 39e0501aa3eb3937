/** The admission rules (src/stashd/domain/allocation.py), tried one after the other. */
module Allocation {
  import opened Numbers
  import opened Options

  datatype Refusal =
    | Conflict | StorageDrained | OverAllocation | TooManyFilesets
    | AllocationLimitExceeded | TotalAllocationLimitExceeded | StorageFull

  /** Everything a decision is based on, each part as some query found it. */
  datatype AllocationState = AllocationState(
    userOnStorage: int, userLimitOnStorage: int,
    userOnCaches: int, userTotalLimit: int,
    storageAllocated: int, capacity: nat, fillLimit: real,
    filesetCount: int, maxFilesets: int,
    overAllocated: bool, drained: bool)

  /** int(capacity * fill_limit) for quantities that are never negative. */
  function Usable(capacity: nat, fillLimit: real): int {
    (capacity as real * fillLimit).Floor
  }

  function Admit(requested: int, s: AllocationState): Option<Refusal> {
    if requested <= 0 then Some(Conflict)
    else if s.drained then Some(StorageDrained)
    else if s.overAllocated then Some(OverAllocation)
    else if s.filesetCount >= s.maxFilesets then Some(TooManyFilesets)
    else if requested > s.userLimitOnStorage - s.userOnStorage then Some(AllocationLimitExceeded)
    else if requested > s.userTotalLimit - s.userOnCaches then Some(TotalAllocationLimitExceeded)
    else if requested > Usable(s.capacity, s.fillLimit) - s.storageAllocated then Some(StorageFull)
    else None
  }

  /** The rules in the order they are checked, the unconditional ones first, each with whether the request meets it. */
  function Rules(requested: int, s: AllocationState): seq<(Refusal, bool)> {
    [(Conflict, requested >= 1),
     (StorageDrained, !s.drained),
     (OverAllocation, !s.overAllocated),
     (TooManyFilesets, s.filesetCount + 1 <= s.maxFilesets),
     (AllocationLimitExceeded, s.userOnStorage + requested <= s.userLimitOnStorage),
     (TotalAllocationLimitExceeded, s.userOnCaches + requested <= s.userTotalLimit),
     (StorageFull, s.storageAllocated + requested <= Usable(s.capacity, s.fillLimit))]
  }

  ghost predicate FirstBroken(rules: seq<(Refusal, bool)>, k: nat) {
    k < |rules| && !rules[k].1 && forall j :: 0 <= j < k ==> rules[j].1
  }

  /** A request is admitted if and only if it meets every rule, and refused for the first one it does not. */
  lemma AdmittedIff(requested: int, s: AllocationState)
    ensures Admit(requested, s).None? <==> forall k :: 0 <= k < |Rules(requested, s)| ==> Rules(requested, s)[k].1
    ensures forall k: nat ::
      FirstBroken(Rules(requested, s), k) ==> Admit(requested, s) == Some(Rules(requested, s)[k].0)
  {
    var rules := Rules(requested, s);
    if forall k :: 0 <= k < |rules| ==> rules[k].1 {
      assert rules[0].1 && rules[1].1 && rules[2].1 && rules[3].1 && rules[4].1 && rules[5].1 && rules[6].1;
    }
    forall k: nat | FirstBroken(rules, k) ensures Admit(requested, s) == Some(rules[k].0) {
      assert k > 0 ==> rules[0].1;
      assert k > 1 ==> rules[1].1;
      assert k > 2 ==> rules[2].1;
      assert k > 3 ==> rules[3].1;
      assert k > 4 ==> rules[4].1;
      assert k > 5 ==> rules[5].1;
    }
  }

  /** The size of a reservation for a measured source: scaled up, at least one byte, and raised to a larger request. */
  function AllocationForSource(measured: nat, headroom: real, requested: Option<int>): int {
    var withHeadroom := Max(Ceil(measured as real * headroom), 1);
    if requested.Some? then Max(withHeadroom, requested.value) else withHeadroom
  }

  /** What is reserved covers what was measured, is never empty, and is what was asked for when that is more. */
  lemma ReservationCoversSource(measured: nat, headroom: real, requested: Option<int>)
    requires headroom >= 1.0
    ensures AllocationForSource(measured, headroom, requested) >= Max(measured, 1)
    ensures requested.Some? ==> AllocationForSource(measured, headroom, requested) >= requested.value
    ensures AllocationForSource(measured, headroom, requested) as real >= measured as real * headroom
    ensures AllocationForSource(measured, headroom, requested) as real < measured as real * headroom + 1.0
         || AllocationForSource(measured, headroom, requested) == 1
         || Some(AllocationForSource(measured, headroom, requested)) == requested
  {
    var x := measured as real * headroom;
    assert x >= measured as real by {
      assert measured as real * (headroom - 1.0) >= 0.0;
      assert x == measured as real * (headroom - 1.0) + measured as real;
    }
    assert (-x).Floor as real <= -x < (-x).Floor as real + 1.0;
  }

  /** How many bytes a resize asks for; a negative number gives some back. */
  function CheckResize(current: int, used: int, new_: int, force: bool): Result<int, Refusal> {
    if new_ <= 0 then Err(Conflict)
    else if new_ < used && !force then Err(Conflict)
    else Ok(new_ - current)
  }
}
