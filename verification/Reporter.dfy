/** How a daemon numbers its reports (src/stashd/clients/events.py). */
module Reporting {

  /** The number of the k-th report: how many there have been for its transfer, itself included. */
  function Number(reports: seq<nat>, k: nat): nat
    requires k < |reports|
  {
    multiset(reports[..k + 1])[reports[k]]
  }

  class EventReporter {
    /** What the counter of a transfer gives out next; a transfer not in it starts at one. */
    var sequences: map<nat, nat>
    ghost var reports: seq<nat>

    ghost predicate Valid()
      reads this
    {
      forall id :: (if id in sequences then sequences[id] else 1) == multiset(reports)[id] + 1
    }

    constructor ()
      ensures Valid() && reports == []
    {
      sequences, reports := map[], [];
    }

    method Report(transferId: nat) returns (sequence: nat)
      requires Valid()
      modifies this
      ensures Valid()
      ensures reports == old(reports) + [transferId]
      ensures sequence == Number(reports, |reports| - 1)
    {
      if transferId !in sequences { sequences := sequences[transferId := 1]; }
      sequence := sequences[transferId];
      sequences := sequences[transferId := sequence + 1];
      reports := reports + [transferId];
      assert reports[..|reports|] == reports;
    }
  }

  /** A transfer's reports are numbered 1, 2, 3 and so on, whatever the daemon reports of others in between: no two
      share a number and a later one has the higher. */
  lemma NumbersRise(reports: seq<nat>, j: nat, k: nat)
    requires j < k < |reports| && reports[j] == reports[k]
    ensures 1 <= Number(reports, j) < Number(reports, k)
    ensures (forall i :: j < i < k ==> reports[i] != reports[k]) ==> Number(reports, k) == Number(reports, j) + 1
  {
    var between := reports[j + 1..k];
    assert reports[..k + 1] == reports[..j + 1] + between + [reports[k]];
    assert reports[..j + 1] == reports[..j] + [reports[j]];
    if forall i :: j < i < k ==> reports[i] != reports[k] {
      assert reports[k] !in between;
    }
  }
}
