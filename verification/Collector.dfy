/**
 * The entropy collector (internal/collector/scheduler.go): collectEntropy's hysteresis loop around
 * the refill batches, and saveRecords. Other goroutines are at rest here; EntropySystem lets them
 * run.
 */
module Collector {
  import opened Tally
  import P = EntropyPool
  import B = RefillBatch
  import S = EntropySystem

  type Bytes = seq<bv8>

  /** The pool after offering it the attempts in order: those the store took are inserted. */
  function Absorb(p: P.Pool, attempts: seq<B.Attempt>): P.Pool {
    if attempts == [] then p
    else
      var q := Absorb(p, attempts[..|attempts| - 1]);
      var last := attempts[|attempts| - 1];
      if last.ok then P.Insert(q, last.record) else q
  }

  lemma {:induction false} AbsorbCounts(p: P.Pool, attempts: seq<B.Attempt>)
    requires P.WellFormed(p)
    ensures P.WellFormed(Absorb(p, attempts))
    ensures |P.Unused(Absorb(p, attempts))| == |P.Unused(p)| + Total(attempts, B.Accepted)
    ensures P.Used(Absorb(p, attempts)) == P.Used(p)
  {
    if attempts != [] {
      var last := |attempts| - 1;
      AbsorbCounts(p, attempts[..last]);
      P.InsertAddsOne(Absorb(p, attempts[..last]), attempts[last].record);
    }
  }

  lemma {:induction false} AbsorbAppends(p: P.Pool, xs: seq<B.Attempt>, ys: seq<B.Attempt>)
    ensures Absorb(p, xs + ys) == Absorb(Absorb(p, xs), ys)
  {
    if ys == [] {
      assert xs + ys == xs;
    } else {
      var last := |ys| - 1;
      assert (xs + ys)[..|xs| + last] == xs + ys[..last];
      AbsorbAppends(p, xs, ys[..last]);
    }
  }

  /** The attempts saveRecords makes for a chunk when the store answers as `accepts` says. */
  function Attempts(data: Bytes, accepts: nat -> bool): seq<B.Attempt> {
    var cuts := B.CutFrom(data, 0);
    seq(|cuts|, i requires 0 <= i < |cuts| => B.Attempt(cuts[i], accepts(i)))
  }

  /** The first off / 256 cuts of a chunk, then the cuts from `off` on. */
  lemma {:induction false} CutsSplit(data: Bytes, off: nat, k: nat)
    requires off == k * B.ENTROPY_RECORD_BYTES && (k == 0 || off - B.ENTROPY_RECORD_BYTES < |data|)
    ensures k <= |B.CutFrom(data, 0)| && B.CutFrom(data, 0)[k..] == B.CutFrom(data, off)
  {
    if k > 0 {
      CutsSplit(data, off - B.ENTROPY_RECORD_BYTES, k - 1);
    }
  }

  /** One more record offered: what has been saved and what the pool holds, so far. */
  lemma AttemptsStep(p: P.Pool, data: Bytes, accepts: nat -> bool, off: nat, k: nat)
    requires off == k * B.ENTROPY_RECORD_BYTES && off < |data|
    ensures off / B.ENTROPY_RECORD_BYTES == k < |Attempts(data, accepts)|
    ensures var all, last := Attempts(data, accepts), B.Attempt(B.RecordAt(data, off), accepts(k));
            && Total(all[..k + 1], B.Accepted) == Total(all[..k], B.Accepted) + B.Accepted(last)
            && Absorb(p, all[..k + 1]) == if last.ok then P.Insert(Absorb(p, all[..k]), last.record) else Absorb(p, all[..k])
  {
    var all := Attempts(data, accepts);
    CutsSplit(data, off, k);
    assert B.CutFrom(data, 0)[k] == B.CutFrom(data, off)[0] == B.RecordAt(data, off);
    assert all[..k + 1][..k] == all[..k];
  }

  // ---- the collector's fold over a batch ----

  /** How the store answered the attempts from position `pos` on. */
  function Answers(attempts: seq<B.Attempt>, pos: nat): nat -> bool {
    (k: nat) => pos + k < |attempts| && attempts[pos + k].ok
  }

  lemma {:induction false} CutsPrefix(os: seq<B.Outcome>, i: nat)
    requires i <= |os|
    ensures B.Cuts(os[..i]) <= B.Cuts(os)
  {
    if i == |os| {
      assert os[..i] == os;
    } else {
      assert os[..|os| - 1][..i] == os[..i];
      CutsPrefix(os[..|os| - 1], i);
    }
  }

  /** The attempts a batch makes for its i-th result are the ones saveRecords makes for that chunk. */
  lemma AttemptsOfResult(received: seq<B.Outcome>, attempts: seq<B.Attempt>, i: nat)
    requires B.RecordsOf(attempts) == B.Cuts(received) && i < |received|
    ensures var pos, end := |B.Cuts(received[..i])|, |B.Cuts(received[..i + 1])|;
            && pos <= end <= |attempts|
            && (received[i].Failed? ==> end == pos)
            && (received[i].Fetched? ==> Attempts(received[i].data, Answers(attempts, pos)) == attempts[pos..end])
  {
    var before, upto := B.Cuts(received[..i]), B.Cuts(received[..i + 1]);
    assert received[..i + 1][..i] == received[..i];
    CutsPrefix(received, i + 1);
    assert |B.RecordsOf(attempts)| == |attempts|;
    if received[i].Fetched? {
      AttemptsAt(received[i].data, attempts, before);
    }
  }

  lemma AttemptsAt(data: Bytes, attempts: seq<B.Attempt>, before: seq<Bytes>)
    requires before + B.CutFrom(data, 0) <= B.RecordsOf(attempts)
    ensures Attempts(data, Answers(attempts, |before|)) == attempts[|before|..|before| + |B.CutFrom(data, 0)|]
  {
    var cuts := B.CutFrom(data, 0);
    forall k | 0 <= k < |cuts|
      ensures cuts[k] == attempts[|before| + k].record
    {
      assert cuts[k] == (before + cuts)[|before| + k] == B.RecordsOf(attempts)[|before| + k];
    }
  }

  /** What folding one more chunk's attempts adds. */
  lemma FoldStep(p: P.Pool, attempts: seq<B.Attempt>, pos: nat, end: nat)
    requires pos <= end <= |attempts|
    ensures Absorb(p, attempts[..end]) == Absorb(Absorb(p, attempts[..pos]), attempts[pos..end])
    ensures Total(attempts[..end], B.Accepted) == Total(attempts[..pos], B.Accepted) + Total(attempts[pos..end], B.Accepted)
  {
    assert attempts[..end] == attempts[..pos] + attempts[pos..end];
    AbsorbAppends(p, attempts[..pos], attempts[pos..end]);
    TotalConcat(attempts[..pos], attempts[pos..end], B.Accepted);
  }

  // ---- the loop as a run of EntropySystem ----

  lemma {:induction false} SavesAreSteps(from: S.State, sys: S.State, attempts: seq<B.Attempt>)
    requires S.Reaches(from, sys) && sys.refill.InBatch?
    ensures S.Reaches(from, sys.(pool := Absorb(sys.pool, attempts),
                                 refill := sys.refill.(saved := sys.refill.saved + Total(attempts, B.Accepted))))
  {
    if attempts != [] {
      var init, last := attempts[..|attempts| - 1], attempts[|attempts| - 1];
      SavesAreSteps(from, sys, init);
      if last.ok {
        S.Step(from, sys.(pool := Absorb(sys.pool, init),
                          refill := sys.refill.(saved := sys.refill.saved + Total(init, B.Accepted))), S.Save(last.record));
      }
    }
  }

  /** Where the loop is after a batch, in the terms of EntropySystem. */
  function AfterBatch(count: nat, failures: nat, saved: nat, fails: nat): S.Refill {
    if S.GivesUp(saved, fails) then S.Leaving(count) else S.Looping(count + saved, failures + fails)
  }

  /** One pass is a whole batch of EntropySystem. */
  lemma PassIsSteps(from: S.State, sys: S.State, attempts: seq<B.Attempt>, fails: nat)
    requires S.Reaches(from, sys) && S.Enabled(sys, S.BeginBatch) && fails <= 14
    ensures S.Reaches(from, sys.(pool := Absorb(sys.pool, attempts),
                                 refill := AfterBatch(sys.refill.count, sys.refill.failures, Total(attempts, B.Accepted), fails)))
  {
    S.Step(from, sys, S.BeginBatch);
    var inBatch := S.Apply(sys, S.BeginBatch);
    SavesAreSteps(from, inBatch, attempts);
    S.Step(from, inBatch.(pool := Absorb(sys.pool, attempts),
                          refill := inBatch.refill.(saved := Total(attempts, B.Accepted))), S.EndBatch(fails));
  }

  lemma LoopLeft(from: S.State, at: S.State, pool: P.Pool, count: nat, failures: nat)
    requires S.Reaches(from, at.(pool := pool, refill := S.Looping(count, failures))) && !S.KeepsGoing(count, failures)
    ensures S.Reaches(from, at.(pool := pool, refill := S.Leaving(count)))
  {
    S.Step(from, at.(pool := pool, refill := S.Looping(count, failures)), S.LeaveLoop);
  }

  // ---- one batch of the loop ----

  function Saved(b: B.State): nat { b.saved }

  function Failures(b: B.State): nat { b.failures }

  /** A batch as the loop starts it at `count`, in the state in which some schedule returns. */
  ghost predicate BatchRan(b: B.State, count: nat, stoppedBefore: bool) {
    count < S.HIGH_WATERMARK && b.collector.Returned? && B.Reaches(B.Init(S.FetchesFor(count), stoppedBefore), b)
  }

  /** Every fetch of the batch came back, and the store refused every record. */
  ghost predicate RefusedEverything(b: B.State) {
    |b.received| == b.fetches > 0 && forall i | 0 <= i < |b.attempts| :: !b.attempts[i].ok
  }

  /** What follows for the loop. */
  lemma BatchFacts(b: B.State, count: nat, stoppedBefore: bool)
    requires BatchRan(b, count, stoppedBefore)
    ensures b.failures == Total(b.received, B.IsFailure) <= 14
    ensures 1000 <= count + 4 * b.fetches <= 1003
    ensures b.saved == Total(b.attempts, B.Accepted) && B.RecordsOf(b.attempts) == B.Cuts(b.received)
    ensures stoppedBefore ==> b.stopped && b.saved == 0 && b.failures == 0
    ensures B.ChunkSized(b.received) ==> count + b.saved <= 1003
    ensures b.saved == 0 && b.failures == 0 && !b.stopped ==> RefusedEverything(b)
  {
    var steps := B.SomeContract(S.FetchesFor(count), stoppedBefore, b);
    B.ReturnedExactly(b);
    B.NothingHappened(b);
    S.FetchesReach(count);
  }

  // ---- all batches of one refill ----

  /** The stop flag the next batch starts with. */
  function StopFlag(batches: seq<B.State>, stoppedBefore: bool): bool {
    if batches == [] then stoppedBefore else batches[|batches| - 1].stopped
  }

  predicate GaveUp(batches: seq<B.State>) {
    batches != [] && S.GivesUp(batches[|batches| - 1].saved, batches[|batches| - 1].failures)
  }

  /**
   * The batches of a refill begun at `start`: each is a real batch, begun at the count and with the
   * stop flag its predecessors left, and begun only because the loop went on.
   */
  ghost predicate Passes(batches: seq<B.State>, start: nat, stoppedBefore: bool) {
    batches != [] ==>
      var init, b := batches[..|batches| - 1], batches[|batches| - 1];
      var count := start + Total(init, Saved);
      && Passes(init, start, stoppedBefore)
      && S.KeepsGoing(count, Total(init, Failures)) && !GaveUp(init)
      && BatchRan(b, count, StopFlag(init, stoppedBefore))
  }

  /** A whole refill: its batches, after which the loop ended, and its final count and failures. */
  ghost predicate CollectOutcome(batches: seq<B.State>, start: nat, count: nat, failures: nat, stoppedBefore: bool) {
    && batches != [] && Passes(batches, start, stoppedBefore)
    && count == start + Total(batches, Saved) && failures == Total(batches, Failures)
    && (!S.KeepsGoing(count, failures) || GaveUp(batches))
  }

  /** A refill counts at most 23 failures and, with 1024-byte chunks, at most 1003 records. */
  lemma RefillBounds(batches: seq<B.State>, start: nat, count: nat, failures: nat, stoppedBefore: bool)
    requires CollectOutcome(batches, start, count, failures, stoppedBefore)
    ensures failures <= 23
    ensures (forall b | b in batches :: B.ChunkSized(b.received)) ==> count <= 1003
  {
    var init, b := batches[..|batches| - 1], batches[|batches| - 1];
    BatchFacts(b, start + Total(init, Saved), StopFlag(init, stoppedBefore));
  }

  /** A batch begun after Stop is the last one. */
  lemma StoppedBatchIsLast(batches: seq<B.State>, start: nat, stoppedBefore: bool)
    requires batches != [] && Passes(batches, start, stoppedBefore) && StopFlag(batches[..|batches| - 1], stoppedBefore)
    ensures GaveUp(batches) && batches[|batches| - 1].stopped
  {
    var init, b := batches[..|batches| - 1], batches[|batches| - 1];
    BatchFacts(b, start + Total(init, Saved), StopFlag(init, stoppedBefore));
  }

  /**
   * Stop ends a refill: all batches but the last two ran without it, and if it came during the last
   * but one the last saved nothing and failed nothing. After Stop a refill is a single such batch.
   */
  lemma {:induction false} StopObeyed(batches: seq<B.State>, start: nat, stoppedBefore: bool)
    requires Passes(batches, start, stoppedBefore)
    ensures forall i | 0 <= i < |batches| - 2 :: !batches[i].stopped
    ensures |batches| >= 2 && batches[|batches| - 2].stopped ==> GaveUp(batches)
    ensures stoppedBefore && batches != [] ==> |batches| == 1 && GaveUp(batches)
  {
    if |batches| == 1 {
      if stoppedBefore {
        StoppedBatchIsLast(batches, start, stoppedBefore);
      }
    } else if batches != [] {
      var init := batches[..|batches| - 1];
      StopObeyed(init, start, stoppedBefore);
      assert |batches| >= 3 ==> init[|init| - 2] == batches[|batches| - 3];
      if batches[|batches| - 2].stopped {
        StoppedBatchIsLast(batches, start, stoppedBefore);
      }
    }
  }

  /** The results of all batches, in order. */
  function Results(batches: seq<B.State>): seq<B.Outcome> {
    if batches == [] then [] else Results(batches[..|batches| - 1]) + batches[|batches| - 1].received
  }

  lemma {:induction false} FailuresAreResults(batches: seq<B.State>, start: nat, stoppedBefore: bool)
    requires Passes(batches, start, stoppedBefore)
    ensures Total(batches, Failures) == Total(Results(batches), B.IsFailure)
  {
    if batches != [] {
      var init, b := batches[..|batches| - 1], batches[|batches| - 1];
      FailuresAreResults(init, start, stoppedBefore);
      BatchFacts(b, start + Total(init, Saved), StopFlag(init, stoppedBefore));
      TotalConcat(Results(init), b.received, B.IsFailure);
    }
  }

  /**
   * Why a refill ends: it is reported stopped by failures if and only if at least ten of all its
   * results were failures, in whatever order; it ends with fewer, below 1000 records, if and only if
   * its last batch saved and failed nothing; and that batch was stopped, or all its fetches came
   * back and the store refused every record.
   */
  lemma RefillVerdict(batches: seq<B.State>, start: nat, count: nat, failures: nat, stoppedBefore: bool)
    requires CollectOutcome(batches, start, count, failures, stoppedBefore)
    ensures failures >= 10 <==> Total(Results(batches), B.IsFailure) >= 10
    ensures var last := batches[|batches| - 1];
            && (count < 1000 && failures < 10 <==> last.saved == 0 && last.failures == 0)
            && (last.saved == 0 && last.failures == 0 ==> last.stopped || RefusedEverything(last))
  {
    FailuresAreResults(batches, start, stoppedBefore);
    GaveUpExactly(batches, start, count, failures, stoppedBefore);
    if GaveUp(batches) {
      WhyGivenUp(batches, start, stoppedBefore);
    }
  }

  /**
   * When and how a refill goes on: before each of its batches it has fewer than 1000 records and
   * fewer than ten failures, the batch makes just enough fetches of four records to reach 1000, and
   * no batch but the last saved and failed nothing.
   */
  lemma {:induction false} GoesOnBelowTheLimits(batches: seq<B.State>, start: nat, stoppedBefore: bool, i: nat)
    requires Passes(batches, start, stoppedBefore) && i < |batches|
    ensures start + Total(batches[..i], Saved) < 1000 && Total(batches[..i], Failures) < 10
    ensures 1000 <= start + Total(batches[..i], Saved) + 4 * batches[i].fetches <= 1003
    ensures i < |batches| - 1 ==> batches[i].saved > 0 || batches[i].failures > 0
  {
    var last := |batches| - 1;
    if i < last {
      assert batches[..last][..i] == batches[..i];
      GoesOnBelowTheLimits(batches[..last], start, stoppedBefore, i);
    } else {
      BatchFacts(batches[last], start + Total(batches[..last], Saved), StopFlag(batches[..last], stoppedBefore));
    }
  }

  /** When a refill ends: at 1000 records, at ten failures, or after a batch that saved and failed nothing. */
  lemma EndsAtALimit(batches: seq<B.State>, start: nat, count: nat, failures: nat, stoppedBefore: bool)
    requires CollectOutcome(batches, start, count, failures, stoppedBefore)
    ensures var last := batches[|batches| - 1];
            count >= 1000 || failures >= 10 || (last.saved == 0 && last.failures == 0)
  {
  }

  lemma GaveUpExactly(batches: seq<B.State>, start: nat, count: nat, failures: nat, stoppedBefore: bool)
    requires CollectOutcome(batches, start, count, failures, stoppedBefore)
    ensures S.KeepsGoing(count, failures) <==> GaveUp(batches)
  {
  }

  lemma WhyGivenUp(batches: seq<B.State>, start: nat, stoppedBefore: bool)
    requires Passes(batches, start, stoppedBefore) && GaveUp(batches)
    ensures batches[|batches| - 1].stopped || RefusedEverything(batches[|batches| - 1])
  {
    var init, b := batches[..|batches| - 1], batches[|batches| - 1];
    BatchFacts(b, start + Total(init, Saved), StopFlag(init, stoppedBefore));
  }

  /** What the pool is after the batches. */
  function AbsorbAll(p: P.Pool, batches: seq<B.State>): P.Pool {
    if batches == [] then p else Absorb(AbsorbAll(p, batches[..|batches| - 1]), batches[|batches| - 1].attempts)
  }

  /** The loop's invariant. */
  ghost predicate LoopInv(batches: seq<B.State>, start: nat, count: nat, failures: nat, stopped: bool, stoppedBefore: bool) {
    && Passes(batches, start, stoppedBefore) && !GaveUp(batches)
    && count == start + Total(batches, Saved) && failures == Total(batches, Failures)
    && stopped == StopFlag(batches, stoppedBefore)
  }

  /** One more batch keeps the invariant or, having changed nothing, ends the loop. */
  lemma LoopTurn(batches: seq<B.State>, start: nat, count: nat, failures: nat, stopped: bool, stoppedBefore: bool, b: B.State)
    requires LoopInv(batches, start, count, failures, stopped, stoppedBefore) && BatchRan(b, count, stopped)
    requires S.KeepsGoing(count, failures)
    ensures if S.GivesUp(b.saved, b.failures)
            then CollectOutcome(batches + [b], start, count + b.saved, failures + b.failures, stoppedBefore)
            else LoopInv(batches + [b], start, count + b.saved, failures + b.failures, b.stopped, stoppedBefore)
  {
    assert (batches + [b])[..|batches|] == batches;
  }

  /** A batch of just enough fetches to reach the high watermark. */
  method RunBatch(count: nat, stopped: bool) returns (batch: B.State)
    requires count < S.HIGH_WATERMARK
    ensures BatchRan(batch, count, stopped)
  {
    var needed := S.HIGH_WATERMARK - count;
    var fetches := (needed + B.RECORDS_PER_FETCH - 1) / B.RECORDS_PER_FETCH;
    ghost var steps;
    batch, steps := B.RunRefillBatch(fetches, stopped);
  }

  class Scheduler {
    const store: P.Repository
    const hasPublisher: bool
    const lowWatermark: nat := S.LOW_WATERMARK
    const highWatermark: nat := S.HIGH_WATERMARK
    var stopped: bool
    var poolOk: seq<nat>       // counts published as pool.ok

    constructor (store: P.Repository, hasPublisher: bool)
      ensures this.store == store && this.hasPublisher == hasPublisher && !stopped && poolOk == []
    {
      this.store, this.hasPublisher := store, hasPublisher;
      stopped, poolOk := false, [];
    }

    /** Closing the stop channel a second time would panic. */
    method Stop()
      requires !stopped
      modifies this`stopped
      ensures stopped
    {
      stopped := true;
    }

    /** Offers the chunk's records to the store in order and counts those it took. */
    method SaveRecords(data: Bytes, accepts: nat -> bool) returns (saved: nat)
      requires store.Valid()
      modifies store
      ensures store.Valid()
      ensures saved == Total(Attempts(data, accepts), B.Accepted)
      ensures store.Contents() == Absorb(old(store.Contents()), Attempts(data, accepts))
    {
      saved := 0;
      var off := 0;
      ghost var k := 0;
      ghost var all := Attempts(data, accepts);
      while off < |data|
        invariant off == k * B.ENTROPY_RECORD_BYTES && (k == 0 || off - B.ENTROPY_RECORD_BYTES < |data|)
        invariant k <= |all| && store.Valid()
        invariant saved == Total(all[..k], B.Accepted)
        invariant store.Contents() == Absorb(old(store.Contents()), all[..k])
        decreases |data| - off
      {
        AttemptsStep(old(store.Contents()), data, accepts, off, k);
        var r := store.SaveEntropy(B.RecordAt(data, off), accepts(off / B.ENTROPY_RECORD_BYTES));
        if r.Ok? {
          saved := saved + 1;
        }
        off, k := off + B.ENTROPY_RECORD_BYTES, k + 1;
      }
      CutsSplit(data, off, k);
      assert all[..k] == all;
    }

    /** publishPoolOk: an event carrying the count, unless messaging is disabled or fails. */
    method PublishPoolOk(count: nat, publishOk: bool)
      modifies this`poolOk
      ensures poolOk == if hasPublisher && publishOk then old(poolOk) + [count] else old(poolOk)
    {
      if !hasPublisher {
        return;
      }
      if publishOk {
        poolOk := poolOk + [count];
      }
    }

    /** The records of the i-th result, which the store answered from position `pos` on. */
    method SaveResult(received: seq<B.Outcome>, attempts: seq<B.Attempt>, i: nat, pos: nat) returns (kept: nat, end: nat)
      requires store.Valid() && B.RecordsOf(attempts) == B.Cuts(received)
      requires i < |received| && received[i].Fetched? && pos == |B.Cuts(received[..i])|
      modifies store
      ensures store.Valid() && pos <= end == |B.Cuts(received[..i + 1])| <= |attempts|
      ensures store.Contents() == Absorb(old(store.Contents()), attempts[pos..end])
      ensures kept == Total(attempts[pos..end], B.Accepted)
    {
      AttemptsOfResult(received, attempts, i);
      kept := SaveRecords(received[i].data, Answers(attempts, pos));
      end := pos + |B.CutFrom(received[i].data, 0)|;
      assert |Attempts(received[i].data, Answers(attempts, pos))| == end - pos;
    }

    /**
     * The collector's range over a batch's results, with the store answering as it did in the
     * batch: failures are counted and every other chunk is saved.
     */
    method FoldResults(received: seq<B.Outcome>, attempts: seq<B.Attempt>) returns (saved: nat, failures: nat)
      requires store.Valid() && B.RecordsOf(attempts) == B.Cuts(received)
      modifies store
      ensures store.Valid() && store.Contents() == Absorb(old(store.Contents()), attempts)
      ensures saved == Total(attempts, B.Accepted) && failures == Total(received, B.IsFailure)
    {
      saved, failures := 0, 0;
      var i, pos := 0, 0;
      while i < |received|
        invariant 0 <= i <= |received| && pos == |B.Cuts(received[..i])| <= |attempts|
        invariant store.Valid() && store.Contents() == Absorb(old(store.Contents()), attempts[..pos])
        invariant saved == Total(attempts[..pos], B.Accepted) && failures == Total(received[..i], B.IsFailure)
      {
        AttemptsOfResult(received, attempts, i);
        assert received[..i + 1][..i] == received[..i];
        if received[i].Failed? {
          failures := failures + 1;
        } else {
          var kept, end := SaveResult(received, attempts, i, pos);
          FoldStep(old(store.Contents()), attempts, pos, end);
          saved, pos := saved + kept, end;
        }
        i := i + 1;
      }
      assert received[..i] == received;
      assert |B.RecordsOf(attempts)| == |attempts|;
      assert attempts[..pos] == attempts;
    }

    /** One pass of the refill loop: a batch, whose chunks go to the store. Stop may arrive while it runs. */
    method Pass(count: nat, ghost failures: nat, ghost from: S.State, ghost at: S.State)
      returns (saved: nat, fails: nat, ghost batch: B.State)
      requires store.Valid() && S.KeepsGoing(count, failures) && count == |P.Unused(store.Contents())|
      requires S.Reaches(from, at) && at.pool == store.Contents() && at.refill == S.Looping(count, failures)
      modifies store, this`stopped
      ensures BatchRan(batch, count, old(stopped)) && saved == batch.saved && fails == batch.failures && stopped == batch.stopped
      ensures store.Valid() && P.Used(store.Contents()) == old(P.Used(store.Contents()))
      ensures store.Contents() == Absorb(old(store.Contents()), batch.attempts)
      ensures |P.Unused(store.Contents())| == count + saved
      ensures S.Reaches(from, at.(pool := store.Contents(), refill := AfterBatch(count, failures, saved, fails)))
    {
      var b := RunBatch(count, stopped);
      batch := b;
      BatchFacts(b, count, stopped);
      PassIsSteps(from, at, b.attempts, b.failures);
      AbsorbCounts(store.Contents(), b.attempts);
      saved, fails := FoldResults(b.received, b.attempts);
      stopped := b.stopped;
    }

    /** The loop, begun at `at`, has reached `count` and `failures` by `batches`, as a run of EntropySystem. */
    ghost predicate Reached(from: S.State, at: S.State, refill: S.Refill, batches: seq<B.State>, count: nat)
      reads this, store
    {
      && store.Valid() && count == |P.Unused(store.Contents())| && P.Used(store.Contents()) == P.Used(at.pool)
      && store.Contents() == AbsorbAll(at.pool, batches)
      && S.Reaches(from, at.(pool := store.Contents(), refill := refill))
    }

    /** One turn of the for loop: a pass, added to everything done since the loop began at `start`. */
    method Turn(count: nat, failures: nat, ghost start: nat, ghost stoppedBefore: bool, ghost batches: seq<B.State>,
                ghost from: S.State, ghost at: S.State)
      returns (saved: nat, fails: nat, ghost more: seq<B.State>)
      requires S.KeepsGoing(count, failures) && Reached(from, at, S.Looping(count, failures), batches, count)
      requires LoopInv(batches, start, count, failures, stopped, stoppedBefore)
      modifies store, this`stopped
      ensures Reached(from, at, AfterBatch(count, failures, saved, fails), more, count + saved)
      ensures if S.GivesUp(saved, fails)
              then CollectOutcome(more, start, count + saved, failures + fails, stoppedBefore)
              else LoopInv(more, start, count + saved, failures + fails, stopped, stoppedBefore)
    {
      ghost var batch;
      saved, fails, batch := Pass(count, failures, from, at.(pool := store.Contents(), refill := S.Looping(count, failures)));
      LoopTurn(batches, start, count, failures, old(stopped), stoppedBefore, batch);
      more := batches + [batch];
      assert more[..|batches|] == batches;
    }

    /** The for loop of collectEntropy, from `start` records below the low watermark. */
    method RefillLoop(start: nat, ghost from: S.State, ghost at: S.State)
      returns (count: nat, failures: nat, ghost batches: seq<B.State>)
      requires store.Valid() && start == |P.Unused(store.Contents())| && S.NeedsRefill(start)
      requires S.Reaches(from, at) && at.pool == store.Contents() && at.refill == S.Looping(start, 0)
      modifies store, this`stopped
      ensures CollectOutcome(batches, start, count, failures, old(stopped))
      ensures Reached(from, at, S.Leaving(count), batches, count)
    {
      count, failures, batches := start, 0, [];
      while S.KeepsGoing(count, failures)
        invariant Reached(from, at, S.Looping(count, failures), batches, count)
        invariant LoopInv(batches, start, count, failures, stopped, old(stopped))
        decreases highWatermark - count, B.MAX_FAILURES - failures
      {
        var saved, fails;
        saved, fails, batches := Turn(count, failures, start, old(stopped), batches, from, at);
        count, failures := count + saved, failures + fails;
        if S.GivesUp(saved, fails) {
          return;
        }
      }
      LoopLeft(from, at, store.Contents(), count, failures);
    }

    /**
     * collectEntropy with nobody else at the pool: it always ends, starts only below the low
     * watermark, runs real batches whose accepted records are what the pool has gained, and
     * publishes pool.ok at most once, exactly when it started below the low watermark and ended at
     * or above the high one. What it does is a run of EntropySystem, in which everybody else may
     * take steps too.
     */
    method CollectEntropy(dbOk: bool, publishOk: bool, ghost from: S.State)
      returns (count: nat, failures: nat, ghost batches: seq<B.State>, ghost end: S.State)
      requires store.Valid() && from.pool == store.Contents() && from.refill.Idle?
      modifies store, this`stopped, this`poolOk
      ensures store.Valid() && P.Used(store.Contents()) == old(P.Used(store.Contents()))
      ensures store.Contents() == AbsorbAll(old(store.Contents()), batches)
      ensures var start := old(|P.Unused(store.Contents())|);
              if dbOk && start < 200
              then CollectOutcome(batches, start, count, failures, old(stopped)) && count == |P.Unused(store.Contents())|
              else batches == []
      ensures batches == [] || count >= 1000 || failures >= 10
              || (batches[|batches| - 1].saved == 0 && batches[|batches| - 1].failures == 0)
      ensures var reached := dbOk && old(|P.Unused(store.Contents())|) < 200 && count >= 1000;
              var published := reached && hasPublisher && publishOk;
              && poolOk == (if published then old(poolOk) + [count] else old(poolOk))
              && end.announced == from.announced + (if published then [count] else [])
      ensures S.Reaches(from, end) && end.pool == store.Contents() && end.refill.Idle? && end.deliveries == from.deliveries
    {
      failures, batches, end := 0, [], from;
      S.ReachesSelf(from);
      var counted := store.CountAllUnusedEntropy(dbOk);
      if counted.Err? {
        count := 0;
        return;
      }
      count := counted.value;
      if !S.NeedsRefill(count) {
        return;
      }
      S.Step(from, from, S.Poll);
      ghost var at := S.Apply(from, S.Poll);
      ghost var start := count;
      ghost var wasStopped := stopped;
      count, failures, batches := RefillLoop(count, from, at);
      EndsAtALimit(batches, start, count, failures, wasStopped);
      end := at.(pool := store.Contents(), refill := S.Leaving(count));
      S.Step(from, end, S.Finish(hasPublisher && publishOk));
      end := S.Apply(end, S.Finish(hasPublisher && publishOk));
      if S.Announces(count) {
        PublishPoolOk(count, publishOk);
      }
    }
  }
}
