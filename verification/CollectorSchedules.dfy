/** Refills that reach the limits of the collector's loop. */
module CollectorSchedules {
  import opened Tally
  import opened RefillBatch
  import opened RefillSchedules
  import C = Collector
  import S = EntropySystem

  lemma OneBatch(b: State, start: nat)
    requires C.BatchRan(b, start, false) && !S.GivesUp(b.saved, b.failures)
    ensures C.Passes([b], start, false) && !C.GaveUp([b])
    ensures Total([b], C.Saved) == b.saved && Total([b], C.Failures) == b.failures
  {
    assert [b][..0] == [];
  }

  lemma TwoBatches(b: State, c: State, start: nat)
    requires C.BatchRan(b, start, false) && !S.GivesUp(b.saved, b.failures) && S.KeepsGoing(start + b.saved, b.failures)
    requires C.BatchRan(c, start + b.saved, b.stopped)
    ensures C.Passes([b, c], start, false)
    ensures Total([b, c], C.Saved) == b.saved + c.saved && Total([b, c], C.Failures) == b.failures + c.failures
  {
    OneBatch(b, start);
    assert [b, c][..1] == [b];
  }

  /**
   * A refill is reported stopped by consecutive failures although, of all its results, no two in a
   * row were failures.
   */
  lemma StopsWithoutTwoInARow(start: nat, data: Bytes) returns (batches: seq<State>)
    requires S.NeedsRefill(start) && 0 < |data| <= ENTROPY_RECORD_BYTES
    ensures C.CollectOutcome(batches, start, start + 10, 10, false)
    ensures NoTwoFailuresInARow(C.Results(batches)) && start + 10 < 1000
  {
    var b := BreakerIsCumulativeReturned(S.FetchesFor(start), data);
    OneBatch(b, start);
    batches := [b];
    assert C.Results(batches) == b.received by { assert batches[..0] == []; }
  }

  /** A refill can count 23 failures: nine in its first batch, fourteen in its second. */
  lemma TwentyThreeFailuresHappen(start: nat, data: Bytes) returns (batches: seq<State>)
    requires S.NeedsRefill(start) && 0 < |data| <= ENTROPY_RECORD_BYTES
    ensures C.CollectOutcome(batches, start, start, 23, false)
  {
    var b := NineFailuresReturned(S.FetchesFor(start), data);
    var c := FourteenFailuresReturned(S.FetchesFor(start));
    TwoBatches(b, c, start);
    batches := [b, c];
  }
}
