/**
 * Schedules of a refill batch that reach its limits: the failure bound of RefillBatch cannot be
 * lowered, and a batch can return (0, 0) although nobody stopped it.
 */
module RefillSchedules {
  import opened RefillBatch
  import Tally

  /** The producer passes its check and hands worker w a job. */
  lemma Assign(s: State, t: State, w: nat) returns (u: State)
    requires Reaches(s, t) && t.producer.Check? && At(t, w, Receiving)
    requires t.next < t.fetches && t.failCount < MAX_FAILURES
    ensures Reaches(s, u) && u == t.(next := t.next + 1, workers := t.workers[w := HasJob])
  {
    Step(s, t, ProducerCheck);
    u := Apply(t, ProducerCheck);
    Step(s, u, HandOff(w));
    u := Apply(u, HandOff(w));
  }

  /** Worker w, holding a job, runs its fetch into an error. */
  lemma Fail(s: State, t: State, w: nat) returns (u: State)
    requires Reaches(s, t) && At(t, w, HasJob) && !t.stopped
    ensures Reaches(s, u)
    ensures u == t.(workers := t.workers[w := FetchFailed], started := t.started + 1,
                    failedFetches := t.failedFetches + 1)
  {
    Step(s, t, StopCheck(w));
    u := Apply(t, StopCheck(w));
    Step(s, u, StartFetch(w));
    u := Apply(u, StartFetch(w));
    Step(s, u, FetchFails(w));
    u := Apply(u, FetchFails(w));
    assert u.workers == t.workers[w := FetchFailed];
  }

  /** Worker w sends its result and the collector, with nothing else buffered, receives it. */
  lemma Transfer(s: State, t: State, w: nat) returns (u: State)
    requires Reaches(s, t) && w < |t.workers| && t.workers[w].Sending? && t.results == [] && t.collector.Ranging?
    ensures Reaches(s, u)
    ensures var o := t.workers[w].outcome;
            u == t.(workers := t.workers[w := if o.Failed? then Sleeping else Receiving],
                    sent := t.sent + [o], received := t.received + [o],
                    failures := if o.Failed? then t.failures + 1 else t.failures,
                    collector := if o.Failed? then t.collector else Saving(o.data, 0, 0))
  {
    Step(s, t, Send(w));
    u := Apply(t, Send(w));
    Step(s, u, Receive);
    u := Apply(u, Receive);
    assert u.results == t.results;
  }

  /** Worker w reports its failure, the collector folds it, and w waits for a job again. */
  lemma Report(s: State, t: State, w: nat) returns (u: State)
    requires Reaches(s, t) && At(t, w, FetchFailed) && t.results == [] && t.collector.Ranging?
    ensures Reaches(s, u)
    ensures u == t.(workers := t.workers[w := Receiving], failCount := t.failCount + 1, failures := t.failures + 1,
                    sent := t.sent + [Failed], received := t.received + [Failed])
  {
    Step(s, t, CountFailure(w));
    u := Apply(t, CountFailure(w));
    u := Transfer(s, u, w);
    Step(s, u, Wake(w));
    u := Apply(u, Wake(w));
    assert u.workers == t.workers[w := Receiving];
  }

  /** Worker 0 alone can fail k < maxFailures times without tripping the breaker. */
  lemma {:induction false} FailInTurn(fetches: nat, k: nat) returns (u: State)
    requires k < MAX_FAILURES && k <= fetches
    ensures Reaches(Init(fetches, false), u)
    ensures u.fetches == fetches && u.next == u.failCount == u.failedFetches == k && u.workers == Init(fetches, false).workers
    ensures u.producer.Check? && u.collector.Ranging? && u.results == [] && !u.stopped && u.saved == 0 && !u.resultsClosed
  {
    var s := Init(fetches, false);
    if k == 0 {
      assert Run(s, []);
      return s;
    }
    var t := FailInTurn(fetches, k - 1);
    t := Assign(s, t, 0);
    t := Fail(s, t, 0);
    u := Report(s, t, 0);
    assert u.workers == s.workers;
  }

  /** Nine failures in, one more job is already past the check when the tenth failure is counted. */
  lemma FiveMore(fetches: nat) returns (u: State)
    requires fetches >= MAX_FAILURES + REFILL_WORKERS
    ensures Reaches(Init(fetches, false), u) && u.failedFetches == u.failCount == MAX_FAILURES && !u.stopped
    ensures u.workers == [HasJob, HasJob, HasJob, HasJob] && u.producer.Check? && u.collector.Ranging?
    ensures u.results == [] && u.saved == 0 && !u.resultsClosed
  {
    var s := Init(fetches, false);
    u := FailInTurn(fetches, MAX_FAILURES - 1);
    u := Assign(s, u, 0);
    u := Assign(s, u, 1);
    u := Assign(s, u, 2);
    u := Assign(s, u, 3);
    Step(s, u, ProducerCheck);
    u := Apply(u, ProducerCheck);
    u := Fail(s, u, 0);
    u := Report(s, u, 0);
    Step(s, u, HandOff(0));
    u := Apply(u, HandOff(0));
  }

  lemma FailAll(s: State, t: State) returns (u: State)
    requires Reaches(s, t) && !t.stopped && t.workers == [HasJob, HasJob, HasJob, HasJob]
    ensures Reaches(s, u) && u.failedFetches == t.failedFetches + REFILL_WORKERS
    ensures u == t.(workers := [FetchFailed, FetchFailed, FetchFailed, FetchFailed], started := u.started, failedFetches := u.failedFetches)
  {
    u := Fail(s, t, 0);
    u := Fail(s, u, 1);
    u := Fail(s, u, 2);
    u := Fail(s, u, 3);
  }

  lemma ReportAll(s: State, t: State) returns (u: State)
    requires Reaches(s, t) && t.workers == [FetchFailed, FetchFailed, FetchFailed, FetchFailed]
    requires t.results == [] && t.collector.Ranging?
    ensures Reaches(s, u)
    ensures u == t.(workers := [Receiving, Receiving, Receiving, Receiving], failCount := t.failCount + REFILL_WORKERS,
                    failures := t.failures + REFILL_WORKERS, sent := u.sent, received := u.received)
  {
    u := Report(s, t, 0);
    u := Report(s, u, 1);
    u := Report(s, u, 2);
    u := Report(s, u, 3);
  }

  /** maxFailures + refillWorkers failed fetches in one batch is reached, so the bound is exact. */
  lemma FourteenFailuresHappen(fetches: nat) returns (u: State)
    requires fetches >= 14
    ensures Reaches(Init(fetches, false), u) && u.failedFetches == 14
  {
    u := FiveMore(fetches);
    u := FailAll(Init(fetches, false), u);
  }

  /** The same batch, returned. */
  lemma FourteenFailuresReturned(fetches: nat) returns (u: State)
    requires fetches >= MAX_FAILURES + REFILL_WORKERS
    ensures Reaches(Init(fetches, false), u) && u.collector.Returned? && !u.stopped
    ensures u.saved == 0 && u.failures == MAX_FAILURES + REFILL_WORKERS
  {
    var s := Init(fetches, false);
    u := FiveMore(fetches);
    u := FailAll(s, u);
    u := ReportAll(s, u);
    u := WindDown(s, u);
    ReturnedFailures(fetches, u);
  }

  /** A returned batch reports its failed fetches, which its last steps do not change. */
  lemma ReturnedFailures(fetches: nat, u: State)
    requires Reaches(Init(fetches, false), u) && u.collector.Returned?
    ensures u.failures == u.failCount
  {
    var steps := SomeContract(fetches, false, u);
    ReturnedExactly(u);
  }

  /** Worker w, holding a job, fetches `data` and hands it to the collector. */
  lemma Deliver(s: State, t: State, w: nat, data: Bytes) returns (u: State)
    requires Reaches(s, t) && At(t, w, HasJob) && !t.stopped && t.results == [] && t.collector.Ranging?
    ensures Reaches(s, u)
    ensures u == t.(workers := t.workers[w := Receiving], started := t.started + 1, collector := Saving(data, 0, 0),
                    sent := t.sent + [Fetched(data)], received := t.received + [Fetched(data)])
  {
    Step(s, t, StopCheck(w));
    u := Apply(t, StopCheck(w));
    Step(s, u, StartFetch(w));
    u := Apply(u, StartFetch(w));
    Step(s, u, FetchSucceeds(w, data));
    u := Apply(u, FetchSucceeds(w, data));
    u := Transfer(s, u, w);
    assert u.workers == t.workers[w := Receiving];
  }

  /** The store takes or refuses the only record of a short chunk. */
  lemma SaveOnly(s: State, t: State, ok: bool) returns (u: State)
    requires Reaches(s, t) && t.collector.Saving? && t.collector.off == t.collector.kept == 0
    requires 0 < |t.collector.data| <= ENTROPY_RECORD_BYTES
    ensures Reaches(s, u)
    ensures u == t.(collector := Ranging, saved := t.saved + (if ok then 1 else 0), attempts := u.attempts)
  {
    Step(s, t, SaveRecord(ok));
    u := Apply(t, SaveRecord(ok));
    Step(s, u, SaveDone);
    u := Apply(u, SaveDone);
  }

  /** With the jobs channel closed the waiting workers leave. */
  lemma DrainAll(s: State, t: State) returns (u: State)
    requires Reaches(s, t) && t.producer.Closed? && |t.workers| == REFILL_WORKERS
    requires forall i | 0 <= i < |t.workers| :: t.workers[i].Receiving?
    ensures Reaches(s, u) && u == t.(workers := u.workers) && AllExited(u)
  {
    Step(s, t, JobsDrained(0));
    u := Apply(t, JobsDrained(0));
    Step(s, u, JobsDrained(1));
    u := Apply(u, JobsDrained(1));
    Step(s, u, JobsDrained(2));
    u := Apply(u, JobsDrained(2));
    Step(s, u, JobsDrained(3));
    u := Apply(u, JobsDrained(3));
  }

  /** With every job done and every worker waiting, the batch closes and returns. */
  lemma WindDown(s: State, t: State) returns (u: State)
    requires Reaches(s, t) && t.producer.Check? && (t.next == t.fetches || t.failCount >= MAX_FAILURES)
    requires |t.workers| == REFILL_WORKERS
    requires t.results == [] && !t.resultsClosed && t.collector.Ranging?
    requires forall i | 0 <= i < |t.workers| :: t.workers[i].Receiving?
    ensures Reaches(s, u) && u.collector.Returned? && u.stopped == t.stopped
    ensures u.saved == t.saved && u.failures == t.failures && u.failCount == t.failCount && u.received == t.received
  {
    Step(s, t, ProducerCheck);
    u := Apply(t, ProducerCheck);
    Step(s, u, CloseJobs);
    u := Apply(u, CloseJobs);
    u := DrainAll(s, u);
    Step(s, u, CloseResults);
    u := Apply(u, CloseResults);
    Step(s, u, Return);
    u := Apply(u, Return);
  }

  /**
   * A returned (0, 0) is not proof of a stop signal: one successful fetch whose only record the
   * store refuses produces it too.
   */
  lemma NothingSavedWithoutStop(data: Bytes) returns (u: State)
    requires 0 < |data| <= ENTROPY_RECORD_BYTES
    ensures Reaches(Init(1, false), u) && u.collector.Returned? && !u.stopped
    ensures u.saved == 0 && u.failures == 0 && u.received == [Fetched(data)]
  {
    var s := Init(1, false);
    assert Run(s, []);
    u := Assign(s, s, 0);
    u := Deliver(s, u, 0, data);
    u := SaveOnly(s, u, false);
    u := WindDown(s, u);
  }

  ghost predicate NoTwoFailuresInARow(os: seq<Outcome>) {
    forall i | 0 < i < |os| :: os[i - 1].Fetched? || os[i].Fetched?
  }

  /** Worker 0 alternates k failures with k successful, stored fetches. */
  lemma {:induction false} FailEveryOther(fetches: nat, k: nat, data: Bytes) returns (u: State)
    requires k <= MAX_FAILURES && 2 * k <= fetches && 0 < |data| <= ENTROPY_RECORD_BYTES
    ensures Reaches(Init(fetches, false), u)
    ensures u.fetches == fetches && u.next == 2 * k && u.failCount == u.saved == k && u.workers == Init(fetches, false).workers
    ensures u.producer.Check? && u.collector.Ranging? && u.results == [] && !u.stopped && !u.resultsClosed
    ensures NoTwoFailuresInARow(u.received) && (u.received != [] ==> u.received[|u.received| - 1].Fetched?)
  {
    var s := Init(fetches, false);
    if k == 0 {
      assert Run(s, []);
      return s;
    }
    var t := FailEveryOther(fetches, k - 1, data);
    u := Assign(s, t, 1);
    u := Assign(s, u, 0);
    u := Fail(s, u, 0);
    u := Report(s, u, 0);
    u := Deliver(s, u, 1, data);
    u := SaveOnly(s, u, true);
    assert u.workers == s.workers;
  }

  /** The breaker counts failures over the whole batch: it trips although no two were consecutive. */
  lemma BreakerIsCumulative(fetches: nat, data: Bytes) returns (u: State)
    requires fetches > 2 * MAX_FAILURES && 0 < |data| <= ENTROPY_RECORD_BYTES
    ensures Reaches(Init(fetches, false), u) && !u.stopped
    ensures u.producer.Closing? && u.next < fetches && u.failures == MAX_FAILURES
    ensures NoTwoFailuresInARow(u.received)
  {
    u := FailEveryOther(fetches, MAX_FAILURES, data);
    InitInv(fetches, false);
    var steps :| Run(Init(fetches, false), steps) && Exec(Init(fetches, false), steps) == u;
    RunInv(Init(fetches, false), steps);
    Idle(u);
    Step(Init(fetches, false), u, ProducerCheck);
    u := Apply(u, ProducerCheck);
  }

  /** With all workers waiting and nothing buffered, the collector has counted every failure. */
  lemma Idle(s: State)
    requires Inv(s) && s.results == [] && forall i | 0 <= i < |s.workers| :: s.workers[i].Receiving?
    ensures s.failures == s.failCount
  {
    Tally.TotalZero(s.workers, HoldsFailure);
    assert s.sent == s.received;
  }

  /** The same batch, returned with jobs left, having saved as often as it failed. */
  lemma BreakerIsCumulativeReturned(fetches: nat, data: Bytes) returns (u: State)
    requires fetches > 2 * MAX_FAILURES && 0 < |data| <= ENTROPY_RECORD_BYTES
    ensures Reaches(Init(fetches, false), u) && u.collector.Returned? && !u.stopped
    ensures u.failures == u.saved == MAX_FAILURES && NoTwoFailuresInARow(u.received)
  {
    u := FailEveryOther(fetches, MAX_FAILURES, data);
    u := WindDown(Init(fetches, false), u);
    ReturnedFailures(fetches, u);
  }

  /** Nine failures, then every other fetch of the batch comes back and is refused. */
  lemma {:induction false} NineThenRefused(fetches: nat, k: nat, data: Bytes) returns (u: State)
    requires MAX_FAILURES - 1 <= k <= fetches && 0 < |data| <= ENTROPY_RECORD_BYTES
    ensures Reaches(Init(fetches, false), u)
    ensures u.fetches == fetches && u.next == k && u.failCount == MAX_FAILURES - 1 && u.workers == Init(fetches, false).workers
    ensures u.producer.Check? && u.collector.Ranging? && u.results == [] && !u.stopped && u.saved == 0 && !u.resultsClosed
    decreases k
  {
    var s := Init(fetches, false);
    if k == MAX_FAILURES - 1 {
      u := FailInTurn(fetches, k);
    } else {
      u := NineThenRefused(fetches, k - 1, data);
      u := Assign(s, u, 0);
      u := Deliver(s, u, 0, data);
      u := SaveOnly(s, u, false);
      assert u.workers == s.workers;
    }
  }

  lemma NineFailuresReturned(fetches: nat, data: Bytes) returns (u: State)
    requires fetches >= MAX_FAILURES && 0 < |data| <= ENTROPY_RECORD_BYTES
    ensures Reaches(Init(fetches, false), u) && u.collector.Returned? && !u.stopped
    ensures u.saved == 0 && u.failures == MAX_FAILURES - 1
  {
    u := NineThenRefused(fetches, fetches, data);
    u := WindDown(Init(fetches, false), u);
    ReturnedFailures(fetches, u);
  }

  /** Worker w, holding a job when the stop signal is up, leaves. */
  lemma LeaveOnStop(s: State, t: State, w: nat) returns (u: State)
    requires Reaches(s, t) && At(t, w, HasJob) && t.stopped
    ensures Reaches(s, u) && u == t.(workers := t.workers[w := Exited])
  {
    Step(s, t, StopCheck(w));
    u := Apply(t, StopCheck(w));
  }

  /** A stopped batch can return while its producer is still about to check for the next job. */
  lemma ReturnsBeforeProducer(fetches: nat) returns (u: State)
    requires fetches >= REFILL_WORKERS
    ensures Reaches(Init(fetches, false), u) && u.collector.Returned? && u.producer.Check?
  {
    var s := Init(fetches, false);
    assert Run(s, []);
    u := Assign(s, s, 0);
    u := Assign(s, u, 1);
    u := Assign(s, u, 2);
    u := Assign(s, u, 3);
    Step(s, u, Stop);
    u := Apply(u, Stop);
    u := LeaveOnStop(s, u, 0);
    u := LeaveOnStop(s, u, 1);
    u := LeaveOnStop(s, u, 2);
    u := LeaveOnStop(s, u, 3);
    Step(s, u, CloseResults);
    u := Apply(u, CloseResults);
    Step(s, u, Return);
    u := Apply(u, Return);
  }
}
