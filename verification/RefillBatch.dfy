/**
 * One refill batch (internal/collector/scheduler.go, runRefillBatch and saveRecords) as a
 * transition system: a producer on an unbuffered channel, refillWorkers workers, a closer and a
 * collector, scheduled in any order, with arbitrary fetch outcomes and an asynchronous stop.
 *
 * Every action is one atomic step of one goroutine. The checks "failCount < maxFailures" and
 * "stopChan is open" are steps of their own, separate from the hand-off and the fetch they guard.
 */
module RefillBatch {
  import opened Tally

  const ENTROPY_CHUNK_BYTES: nat := 1024
  const ENTROPY_RECORD_BYTES: nat := 256
  const REFILL_WORKERS: nat := 4
  const MAX_FAILURES: nat := 10
  const RECORDS_PER_FETCH: nat := ENTROPY_CHUNK_BYTES / ENTROPY_RECORD_BYTES

  type Bytes = seq<bv8>

  /** fetchResult: what a worker sends back. */
  datatype Outcome = Failed | Fetched(data: Bytes)

  /** The producer is at the failure check, offering a job, about to close jobs, or done. */
  datatype Producer = Check | Offer | Closing | Closed

  datatype Worker =
    | Receiving              // at `range jobs`
    | HasJob                 // before the stop check
    | Cleared                // passed the stop check, fetch not started
    | Fetching
    | FetchFailed            // fetch returned an error, failCount not yet raised
    | Sending(outcome: Outcome)
    | Sleeping               // retryDelay pause
    | Exited                 // wg.Done has run

  datatype Collector =
    | Ranging
    | Saving(data: Bytes, off: nat, kept: nat)   // inside saveRecords
    | Returned

  /** One SaveEntropy call: the record it was given and whether the store took it. */
  datatype Attempt = Attempt(record: Bytes, ok: bool)

  datatype State = State(
    fetches: nat,
    next: nat,
    producer: Producer,
    workers: seq<Worker>,
    failCount: nat,
    stopped: bool,
    results: seq<Outcome>,
    resultsClosed: bool,
    collector: Collector,
    saved: nat,
    failures: nat,
    // History of the run.
    sent: seq<Outcome>,
    received: seq<Outcome>,
    attempts: seq<Attempt>,
    started: nat,
    failedFetches: nat,
    startedAfterStop: nat)

  datatype Action =
    | ProducerCheck
    | HandOff(w: nat)
    | ProducerStops
    | CloseJobs
    | JobsDrained(w: nat)
    | StopCheck(w: nat)
    | StartFetch(w: nat)
    | FetchFails(w: nat)
    | FetchSucceeds(w: nat, data: Bytes)
    | CountFailure(w: nat)
    | Send(w: nat)
    | Wake(w: nat)
    | CloseResults
    | Receive
    | SaveRecord(ok: bool)
    | SaveDone
    | Return
    | Stop

  function Init(fetches: nat, stopped: bool): State {
    State(fetches, 0, Check, seq(REFILL_WORKERS, _ => Receiving), 0, stopped, [], false, Ranging, 0, 0,
          [], [], [], 0, 0, 0)
  }

  predicate At(s: State, w: nat, pc: Worker) {
    w < |s.workers| && s.workers[w] == pc
  }

  predicate AllExited(s: State) {
    forall i | 0 <= i < |s.workers| :: s.workers[i].Exited?
  }

  /** Which actions the program (or, for Stop, its environment) can take in a state. */
  predicate Enabled(s: State, a: Action) {
    match a
    case ProducerCheck => s.producer.Check?
    case HandOff(w) => s.producer.Offer? && At(s, w, Receiving)
    case ProducerStops => s.producer.Offer? && s.stopped
    case CloseJobs => s.producer.Closing?
    case JobsDrained(w) => s.producer.Closed? && At(s, w, Receiving)
    case StopCheck(w) => At(s, w, HasJob)
    case StartFetch(w) => At(s, w, Cleared)
    case FetchFails(w) => At(s, w, Fetching)
    case FetchSucceeds(w, _) => At(s, w, Fetching)
    case CountFailure(w) => At(s, w, FetchFailed)
    case Send(w) => w < |s.workers| && s.workers[w].Sending? && |s.results| < REFILL_WORKERS
    case Wake(w) => At(s, w, Sleeping)
    case CloseResults => AllExited(s) && !s.resultsClosed
    case Receive => s.collector.Ranging? && s.results != []
    case SaveRecord(_) => s.collector.Saving? && s.collector.off < |s.collector.data|
    case SaveDone => s.collector.Saving? && s.collector.off >= |s.collector.data|
    case Return => s.collector.Ranging? && s.results == [] && s.resultsClosed
    case Stop => !s.stopped
  }

  function MoveTo(s: State, w: nat, pc: Worker): State
    requires w < |s.workers|
  {
    s.(workers := s.workers[w := pc])
  }

  /** saveRecords' slice of the chunk at `off`: one record, or what is left of it. */
  function RecordAt(data: Bytes, off: nat): Bytes
    requires off < |data|
  {
    data[off..if off + ENTROPY_RECORD_BYTES <= |data| then off + ENTROPY_RECORD_BYTES else |data|]
  }

  function Apply(s: State, a: Action): State
    requires Enabled(s, a)
  {
    match a
    case ProducerCheck =>
      s.(producer := if s.next >= s.fetches || s.failCount >= MAX_FAILURES then Closing else Offer)
    case HandOff(w) =>
      MoveTo(s, w, HasJob).(producer := Check, next := s.next + 1)
    case ProducerStops =>
      s.(producer := Closing)
    case CloseJobs =>
      s.(producer := Closed)
    case JobsDrained(w) =>
      MoveTo(s, w, Exited)
    case StopCheck(w) =>
      MoveTo(s, w, if s.stopped then Exited else Cleared)
    case StartFetch(w) =>
      MoveTo(s, w, Fetching).(started := s.started + 1,
                              startedAfterStop := s.startedAfterStop + if s.stopped then 1 else 0)
    case FetchFails(w) =>
      MoveTo(s, w, FetchFailed).(failedFetches := s.failedFetches + 1)
    case FetchSucceeds(w, data) =>
      MoveTo(s, w, Sending(Fetched(data)))
    case CountFailure(w) =>
      MoveTo(s, w, Sending(Failed)).(failCount := s.failCount + 1)
    case Send(w) =>
      var o := s.workers[w].outcome;
      MoveTo(s, w, if o.Failed? then Sleeping else Receiving).(results := s.results + [o], sent := s.sent + [o])
    case Wake(w) =>
      MoveTo(s, w, Receiving)
    case CloseResults =>
      s.(resultsClosed := true)
    case Receive =>
      var o := s.results[0];
      var t := s.(results := s.results[1..], received := s.received + [o]);
      if o.Failed? then t.(failures := s.failures + 1) else t.(collector := Saving(o.data, 0, 0))
    case SaveRecord(ok) =>
      var Saving(data, off, kept) := s.collector;
      s.(collector := Saving(data, off + ENTROPY_RECORD_BYTES, kept + if ok then 1 else 0),
         attempts := s.attempts + [Attempt(RecordAt(data, off), ok)])
    case SaveDone =>
      s.(collector := Ranging, saved := s.saved + s.collector.kept)
    case Return =>
      s.(collector := Returned)
    case Stop =>
      s.(stopped := true)
  }

  // ---- runs ----

  /** `steps` can be taken, in this order, from `s`. */
  predicate Run(s: State, steps: seq<Action>)
    decreases |steps|
  {
    steps == [] || (Enabled(s, steps[0]) && Run(Apply(s, steps[0]), steps[1..]))
  }

  function Exec(s: State, steps: seq<Action>): State
    requires Run(s, steps)
    decreases |steps|
  {
    if steps == [] then s else Exec(Apply(s, steps[0]), steps[1..])
  }

  lemma {:induction false} RunExtends(s: State, steps: seq<Action>, a: Action)
    requires Run(s, steps) && Enabled(Exec(s, steps), a)
    ensures Run(s, steps + [a]) && Exec(s, steps + [a]) == Apply(Exec(s, steps), a)
    decreases |steps|
  {
    if steps == [] {
      assert [a][1..] == [];
    } else {
      RunExtends(Apply(s, steps[0]), steps[1..], a);
      assert (steps + [a])[1..] == steps[1..] + [a];
    }
  }

  /** Some schedule leads from s to t. */
  ghost predicate Reaches(s: State, t: State) {
    exists steps {:trigger Run(s, steps)} :: Run(s, steps) && Exec(s, steps) == t
  }

  lemma Step(s: State, t: State, a: Action)
    requires Reaches(s, t) && Enabled(t, a)
    ensures Reaches(s, Apply(t, a))
  {
    var steps :| Run(s, steps) && Exec(s, steps) == t;
    RunExtends(s, steps, a);
    assert Run(s, steps + [a]);
  }

  // ---- invariant ----

  /** Holds a job whose fetch may still fail without failCount knowing. */
  function Undecided(w: Worker): nat {
    if w.HasJob? || w.Cleared? || w.Fetching? || w.FetchFailed? then 1 else 0
  }

  function Uncounted(w: Worker): nat { if w.FetchFailed? then 1 else 0 }

  function HoldsFailure(w: Worker): nat { if w == Sending(Failed) then 1 else 0 }

  /** Holds a job that has not produced a result yet. */
  function Busy(w: Worker): nat { if Undecided(w) == 1 || w.Sending? then 1 else 0 }

  function IsCleared(w: Worker): nat { if w.Cleared? then 1 else 0 }

  function IsFailure(o: Outcome): nat { if o.Failed? then 1 else 0 }

  function Accepted(a: Attempt): nat { if a.ok then 1 else 0 }

  function Kept(c: Collector): nat { if c.Saving? then c.kept else 0 }

  /** The records saveRecords cuts a chunk into, from offset `off` on. */
  function CutFrom(data: Bytes, off: nat): seq<Bytes>
    decreases |data| - off
  {
    if off >= |data| then [] else [RecordAt(data, off)] + CutFrom(data, off + ENTROPY_RECORD_BYTES)
  }

  /** The records of every successful fetch, in the order of the results. */
  function Cuts(os: seq<Outcome>): seq<Bytes> {
    if os == [] then []
    else
      var o := os[|os| - 1];
      Cuts(os[..|os| - 1]) + if o.Failed? then [] else CutFrom(o.data, 0)
  }

  function RecordsOf(attempts: seq<Attempt>): seq<Bytes> {
    seq(|attempts|, i requires 0 <= i < |attempts| => attempts[i].record)
  }

  function Uncut(c: Collector): seq<Bytes> { if c.Saving? then CutFrom(c.data, c.off) else [] }

  ghost predicate Shape(s: State) {
    && |s.workers| == REFILL_WORKERS
    && |s.results| <= REFILL_WORKERS
    && s.next <= s.fetches
    && (s.producer.Offer? ==> s.next < s.fetches)
  }

  /** The circuit breaker: what has failed plus what may still fail. */
  ghost predicate Breaker(s: State) {
    && s.failCount + Total(s.workers, Undecided) + (if s.producer.Offer? then 1 else 0)
       <= MAX_FAILURES + REFILL_WORKERS
    && s.failedFetches == s.failCount + Total(s.workers, Uncounted)
  }

  /** Every result is sent once and received once, in order. */
  ghost predicate Order(s: State) {
    s.sent == s.received + s.results
  }

  /** What has been received is folded into the collector's totals once. */
  ghost predicate Fold(s: State) {
    && s.failCount == Total(s.sent, IsFailure) + Total(s.workers, HoldsFailure)
    && s.failures == Total(s.received, IsFailure)
    && s.saved + Kept(s.collector) == Total(s.attempts, Accepted)
  }

  /** What has been offered to the store, and what is still to be, is the received chunks cut in order. */
  ghost predicate Content(s: State) {
    RecordsOf(s.attempts) + Uncut(s.collector) == Cuts(s.received)
  }

  /** No job is lost except the one a worker drops when it sees the stop signal. */
  ghost predicate Jobs(s: State) {
    && |s.sent| + Total(s.workers, Busy) <= s.next
    && (!s.stopped ==> |s.sent| + Total(s.workers, Busy) == s.next)
    && (s.producer.Closing? || s.producer.Closed? ==>
          s.stopped || s.next == s.fetches || s.failCount >= MAX_FAILURES)
  }

  ghost predicate Shutdown(s: State) {
    && (s.resultsClosed ==> AllExited(s))
    && (forall i | 0 <= i < |s.workers| :: s.workers[i].Exited? ==> s.stopped || s.producer.Closed?)
    && (s.collector.Returned? ==> s.resultsClosed && s.results == [])
  }

  ghost predicate StopBound(s: State) {
    if s.stopped then s.startedAfterStop + Total(s.workers, IsCleared) <= REFILL_WORKERS
    else s.startedAfterStop == 0
  }

  ghost predicate Inv(s: State) {
    Shape(s) && Breaker(s) && Order(s) && Fold(s) && Content(s) && Jobs(s) && Shutdown(s) && StopBound(s)
  }

  lemma InitInv(fetches: nat, stopped: bool)
    ensures Inv(Init(fetches, stopped))
  {
    var ws := Init(fetches, stopped).workers;
    TotalZero(ws, Undecided);
    TotalZero(ws, Uncounted);
    TotalZero(ws, HoldsFailure);
    TotalZero(ws, Busy);
    TotalZero(ws, IsCleared);
  }

  predicate IsWorkerStep(a: Action) {
    a.HandOff? || a.JobsDrained? || a.StopCheck? || a.StartFetch? || a.FetchFails? || a.FetchSucceeds?
    || a.CountFailure? || a.Send? || a.Wake?
  }

  lemma WorkerStepBreaker(s: State, a: Action)
    requires Shape(s) && Breaker(s) && Enabled(s, a) && IsWorkerStep(a)
    ensures Breaker(Apply(s, a))
  {
    var pc := Apply(s, a).workers[a.w];
    TotalUpdate(s.workers, a.w, pc, Undecided);
    TotalUpdate(s.workers, a.w, pc, Uncounted);
  }

  lemma QueuePush<T>(taken: seq<T>, queued: seq<T>, x: T)
    ensures (taken + queued) + [x] == taken + (queued + [x])
  {
  }

  lemma QueuePop<T>(taken: seq<T>, queued: seq<T>)
    requires queued != []
    ensures taken + queued == (taken + [queued[0]]) + queued[1..]
  {
  }

  lemma WorkerStepOrder(s: State, a: Action)
    requires Order(s) && Enabled(s, a) && IsWorkerStep(a)
    ensures Order(Apply(s, a))
  {
    if a.Send? {
      QueuePush(s.received, s.results, s.workers[a.w].outcome);
    }
  }

  lemma WorkerStepFold(s: State, a: Action)
    requires Fold(s) && Enabled(s, a) && IsWorkerStep(a)
    ensures Fold(Apply(s, a))
  {
    TotalUpdate(s.workers, a.w, Apply(s, a).workers[a.w], HoldsFailure);
    if a.Send? {
      TotalAppend(s.sent, s.workers[a.w].outcome, IsFailure);
    }
  }

  /** How many results and jobs still under way a step of worker w adds. */
  lemma WorkerStepBusy(s: State, a: Action)
    requires Enabled(s, a) && IsWorkerStep(a)
    ensures var t := Apply(s, a);
            var made, taken := |t.sent| + Total(t.workers, Busy), |s.sent| + Total(s.workers, Busy);
            && (if a.HandOff? then made == taken + 1 && t.next == s.next + 1
                else t.next == s.next && (made == taken || (a.StopCheck? && s.stopped && made == taken - 1)))
  {
    TotalUpdate(s.workers, a.w, Apply(s, a).workers[a.w], Busy);
  }

  lemma WorkerStepJobs(s: State, a: Action)
    requires Jobs(s) && Enabled(s, a) && IsWorkerStep(a)
    ensures Jobs(Apply(s, a))
  {
    var t := Apply(s, a);
    WorkerStepBusy(s, a);
    assert t.stopped == s.stopped && t.fetches == s.fetches && t.failCount >= s.failCount;
    assert a.HandOff? || t.producer == s.producer;
  }

  lemma WorkerStepShutdown(s: State, a: Action)
    requires Shutdown(s) && Enabled(s, a) && IsWorkerStep(a)
    ensures Shutdown(Apply(s, a))
  {
  }

  lemma WorkerStepStopBound(s: State, a: Action)
    requires Shape(s) && StopBound(s) && Enabled(s, a) && IsWorkerStep(a)
    ensures Shape(Apply(s, a)) && StopBound(Apply(s, a))
  {
    TotalUpdate(s.workers, a.w, Apply(s, a).workers[a.w], IsCleared);
  }

  lemma WorkerStepInv(s: State, a: Action)
    requires Inv(s) && Enabled(s, a) && IsWorkerStep(a)
    ensures Inv(Apply(s, a))
  {
    WorkerStepBreaker(s, a);
    WorkerStepOrder(s, a);
    WorkerStepFold(s, a);
    assert Content(Apply(s, a));
    WorkerStepJobs(s, a);
    WorkerStepShutdown(s, a);
    WorkerStepStopBound(s, a);
  }

  lemma OtherStepInv(s: State, a: Action)
    requires Inv(s) && Enabled(s, a)
    requires a.ProducerCheck? || a.ProducerStops? || a.CloseJobs? || a.CloseResults? || a.Return? || a.Stop?
    ensures Inv(Apply(s, a))
  {
    TotalAtMost(s.workers, Undecided, 1);
    TotalAtMost(s.workers, IsCleared, 1);
  }

  lemma ReceiveContent(s: State, t: State, o: Outcome)
    requires Content(s) && s.collector.Ranging? && t.attempts == s.attempts && t.received == s.received + [o]
    requires t.collector == if o.Failed? then Ranging else Saving(o.data, 0, 0)
    ensures Content(t)
  {
    assert t.received[..|s.received|] == s.received;
  }

  /** What taking one result from the channel changes. */
  lemma ReceiveEffect(s: State)
    requires Enabled(s, Receive)
    ensures var t := Apply(s, Receive);
            var o := s.results[0];
            && t.received == s.received + [o] && t.results == s.results[1..]
            && t.failures == s.failures + IsFailure(o)
            && t.collector == (if o.Failed? then Ranging else Saving(o.data, 0, 0))
            && t == s.(received := t.received, results := t.results, failures := t.failures, collector := t.collector)
  {
  }

  lemma ReceiveFold(s: State, t: State, o: Outcome)
    requires Fold(s) && s.collector.Ranging?
    requires t.received == s.received + [o] && t.failures == s.failures + IsFailure(o) && Kept(t.collector) == 0
    requires t.sent == s.sent && t.workers == s.workers && t.failCount == s.failCount && t.saved == s.saved && t.attempts == s.attempts
    ensures Fold(t)
  {
    TotalAppend(s.received, o, IsFailure);
  }

  lemma ReceiveInv(s: State)
    requires Inv(s) && Enabled(s, Receive)
    ensures Inv(Apply(s, Receive))
  {
    var t, o := Apply(s, Receive), s.results[0];
    ReceiveEffect(s);
    QueuePop(s.received, s.results);
    ReceiveContent(s, t, o);
    ReceiveFold(s, t, o);
  }

  lemma SaveRecordContent(s: State, ok: bool)
    requires Content(s) && Enabled(s, SaveRecord(ok))
    ensures Content(Apply(s, SaveRecord(ok)))
  {
    var t := Apply(s, SaveRecord(ok));
    var record := RecordAt(s.collector.data, s.collector.off);
    RecordsAppend(s.attempts, Attempt(record, ok));
    assert Uncut(s.collector) == [record] + Uncut(t.collector);
    QueuePop(RecordsOf(s.attempts), Uncut(s.collector));
  }

  lemma RecordsAppend(attempts: seq<Attempt>, a: Attempt)
    ensures RecordsOf(attempts + [a]) == RecordsOf(attempts) + [a.record]
  {
  }

  lemma SaveRecordFold(s: State, t: State, a: Attempt)
    requires Fold(s) && t.attempts == s.attempts + [a] && Kept(t.collector) == Kept(s.collector) + Accepted(a)
    requires t.sent == s.sent && t.workers == s.workers && t.failCount == s.failCount && t.saved == s.saved
    requires t.received == s.received && t.failures == s.failures
    ensures Fold(t)
  {
    TotalAppend(s.attempts, a, Accepted);
  }

  lemma SaveRecordInv(s: State, ok: bool)
    requires Inv(s) && Enabled(s, SaveRecord(ok))
    ensures Inv(Apply(s, SaveRecord(ok)))
  {
    SaveRecordContent(s, ok);
    SaveRecordFold(s, Apply(s, SaveRecord(ok)), Attempt(RecordAt(s.collector.data, s.collector.off), ok));
  }

  lemma SaveDoneInv(s: State)
    requires Inv(s) && Enabled(s, SaveDone)
    ensures Inv(Apply(s, SaveDone))
  {
  }

  lemma StepInv(s: State, a: Action)
    requires Inv(s) && Enabled(s, a)
    ensures Inv(Apply(s, a))
  {
    match a
    case ProducerCheck | ProducerStops | CloseJobs | CloseResults | Return | Stop => OtherStepInv(s, a);
    case Receive => ReceiveInv(s);
    case SaveRecord(ok) => SaveRecordInv(s, ok);
    case SaveDone => SaveDoneInv(s);
    case _ => WorkerStepInv(s, a);
  }

  lemma {:induction false} RunInv(s: State, steps: seq<Action>)
    requires Inv(s) && Run(s, steps)
    ensures Inv(Exec(s, steps))
    decreases |steps|
  {
    if steps != [] {
      StepInv(s, steps[0]);
      RunInv(Apply(s, steps[0]), steps[1..]);
    }
  }

  // ---- no deadlock, and termination ----

  /** Nothing of the batch is left running. */
  predicate Quiescent(s: State) {
    s.collector.Returned? && s.producer.Closed?
  }

  /** The step a worker that is neither waiting for a job nor gone can always take. */
  function WorkerStep(s: State, w: nat): Action
    requires w < |s.workers|
  {
    match s.workers[w]
    case HasJob => StopCheck(w)
    case Cleared => StartFetch(w)
    case Fetching => FetchFails(w)
    case FetchFailed => CountFailure(w)
    case Sending(_) => Send(w)
    case _ => Wake(w)
  }

  /** The program itself can always move: no reachable state waits for the environment. */
  lemma Progress(s: State) returns (a: Action)
    requires Inv(s) && !Quiescent(s)
    ensures Enabled(s, a) && !a.Stop?
  {
    if s.collector.Saving? {
      return if s.collector.off < |s.collector.data| then SaveRecord(true) else SaveDone;
    }
    if s.results != [] {
      return Receive;
    }
    if w: nat :| w < |s.workers| && !s.workers[w].Receiving? && !s.workers[w].Exited? {
      return WorkerStep(s, w);
    }
    match s.producer
    case Check => return ProducerCheck;
    case Closing => return CloseJobs;
    case Offer =>
      if w: nat :| w < |s.workers| && s.workers[w].Receiving? {
        return HandOff(w);
      }
      assert s.workers[0].Exited?;
      return ProducerStops;
    case Closed =>
      if w: nat :| w < |s.workers| && s.workers[w].Receiving? {
        return JobsDrained(w);
      }
      return if s.resultsClosed then Return else CloseResults;
  }

  function WorkerRank(w: Worker): nat {
    match w
    case Exited => 0
    case Receiving => 1
    case Sleeping => 2
    case Sending(_) => 7
    case FetchFailed => 8
    case Fetching => 9
    case Cleared => 10
    case HasJob => 11
  }

  function ProducerRank(p: Producer): nat {
    match p case Closed => 0 case Closing => 1 case Offer => 2 case Check => 3
  }

  function CollectorRank(c: Collector): nat {
    match c case Returned => 0 case Ranging => 1 case Saving(_, _, _) => 2
  }

  /** What is left to do, not counting the records of the chunk being saved. */
  function WorkLeft(s: State): int {
    20 * (s.fetches - s.next) + ProducerRank(s.producer) + Total(s.workers, WorkerRank) + 3 * |s.results|
    + CollectorRank(s.collector) + (if s.resultsClosed then 0 else 1) + if s.stopped then 0 else 1
  }

  function BytesLeft(s: State): nat {
    if s.collector.Saving? && s.collector.off < |s.collector.data| then |s.collector.data| - s.collector.off else 0
  }

  ghost predicate Descends(s: State, t: State) {
    0 <= WorkLeft(t) && (WorkLeft(t) < WorkLeft(s) || (WorkLeft(t) == WorkLeft(s) && BytesLeft(t) < BytesLeft(s)))
  }

  lemma WorkerStepDescends(s: State, a: Action)
    requires Shape(s) && Enabled(s, a) && IsWorkerStep(a)
    ensures Descends(s, Apply(s, a))
  {
    var t := Apply(s, a);
    WorkerStepRank(s, a);
    assert t.resultsClosed == s.resultsClosed && t.stopped == s.stopped && t.fetches == s.fetches;
  }

  /** What a step of worker w does to the terms of WorkLeft it touches. */
  lemma WorkerStepRank(s: State, a: Action)
    requires Shape(s) && Enabled(s, a) && IsWorkerStep(a)
    ensures var t := Apply(s, a);
            var before, after := Total(s.workers, WorkerRank), Total(t.workers, WorkerRank);
            && t.collector == s.collector
            && (if a.HandOff? then
                  after == before + 10 && t.next == s.next + 1 && ProducerRank(t.producer) == ProducerRank(s.producer) + 1
                  && t.results == s.results
                else
                  t.next == s.next && t.producer == s.producer
                  && (if a.Send? then after <= before - 5 && |t.results| == |s.results| + 1 else after < before && t.results == s.results))
  {
    TotalUpdate(s.workers, a.w, Apply(s, a).workers[a.w], WorkerRank);
  }

  lemma OtherStepDescends(s: State, a: Action)
    requires Shape(s) && Enabled(s, a) && !IsWorkerStep(a)
    ensures Descends(s, Apply(s, a))
  {
    assert Apply(s, a).workers == s.workers;
  }

  /** Every step, whichever goroutine takes it, lowers (WorkLeft, BytesLeft) lexicographically. */
  lemma StepTerminates(s: State, a: Action)
    requires Inv(s) && Enabled(s, a)
    ensures Descends(s, Apply(s, a))
  {
    if IsWorkerStep(a) {
      WorkerStepDescends(s, a);
    } else {
      OtherStepDescends(s, a);
    }
  }

  // ---- what the fetches delivered ----

  /** What a step learns from a fetch. */
  function Delivered(a: Action): seq<Outcome> {
    match a
    case FetchFails(_) => [Failed]
    case FetchSucceeds(_, data) => [Fetched(data)]
    case _ => []
  }

  /** What all fetches of a run delivered, in the order in which they ended. */
  function Outcomes(steps: seq<Action>): seq<Outcome> {
    if steps == [] then [] else Delivered(steps[0]) + Outcomes(steps[1..])
  }

  function Same(o: Outcome, p: Outcome): nat { if o == p then 1 else 0 }

  /** Whether a worker has result o and has not sent it yet. */
  function Unsent(o: Outcome, w: Worker): nat {
    if w.FetchFailed? then Same(o, Failed) else if w.Sending? then Same(o, w.outcome) else 0
  }

  function IsSame(o: Outcome): Outcome -> nat { p => Same(o, p) }

  function IsUnsent(o: Outcome): Worker -> nat { w => Unsent(o, w) }

  /** How often o has been sent or is held by a worker. */
  function Known(s: State, o: Outcome): nat {
    Total(s.sent, IsSame(o)) + Total(s.workers, IsUnsent(o))
  }

  /** How often a step's fetch delivered o. */
  function DeliveredAs(o: Outcome, a: Action): nat {
    if a.FetchFails? then Same(o, Failed) else if a.FetchSucceeds? then Same(o, Fetched(a.data)) else 0
  }

  lemma DeliveredCount(a: Action, o: Outcome)
    ensures Total(Delivered(a), IsSame(o)) == DeliveredAs(o, a)
  {
    if a.FetchFails? {
      TotalAppend([], Failed, IsSame(o));
    } else if a.FetchSucceeds? {
      TotalAppend([], Fetched(a.data), IsSame(o));
    }
  }

  lemma SentCount(s: State, a: Action, o: Outcome)
    requires Enabled(s, a) && IsWorkerStep(a)
    ensures Total(Apply(s, a).sent, IsSame(o)) == Total(s.sent, IsSame(o)) + if a.Send? then Same(o, s.workers[a.w].outcome) else 0
  {
    if a.Send? {
      TotalAppend(s.sent, s.workers[a.w].outcome, IsSame(o));
    }
  }

  lemma UnsentCount(s: State, a: Action, o: Outcome)
    requires Enabled(s, a) && IsWorkerStep(a)
    ensures var t := Apply(s, a);
            Unsent(o, t.workers[a.w]) + (if a.Send? then Same(o, s.workers[a.w].outcome) else 0)
            == Unsent(o, s.workers[a.w]) + DeliveredAs(o, a)
    ensures Apply(s, a).workers == s.workers[a.w := Apply(s, a).workers[a.w]]
  {
  }

  lemma WorkerStepDelivers(s: State, a: Action, o: Outcome)
    requires Enabled(s, a) && IsWorkerStep(a)
    ensures Known(Apply(s, a), o) == Known(s, o) + DeliveredAs(o, a)
  {
    UnsentCount(s, a, o);
    SentCount(s, a, o);
    TotalUpdate(s.workers, a.w, Apply(s, a).workers[a.w], IsUnsent(o));
  }

  lemma StepDelivers(s: State, a: Action, o: Outcome)
    requires Enabled(s, a)
    ensures Known(Apply(s, a), o) == Known(s, o) + Total(Delivered(a), IsSame(o))
  {
    DeliveredCount(a, o);
    if IsWorkerStep(a) {
      WorkerStepDelivers(s, a, o);
    }
  }

  lemma {:induction false} RunDelivers(s: State, steps: seq<Action>, o: Outcome)
    requires Run(s, steps)
    ensures Known(Exec(s, steps), o) == Known(s, o) + Total(Outcomes(steps), IsSame(o))
    decreases |steps|
  {
    if steps != [] {
      StepDelivers(s, steps[0], o);
      RunDelivers(Apply(s, steps[0]), steps[1..], o);
      TotalConcat(Delivered(steps[0]), Outcomes(steps[1..]), IsSame(o));
    }
  }

  lemma {:induction false} MultisetCounts(os: seq<Outcome>, o: Outcome)
    ensures multiset(os)[o] == Total(os, IsSame(o))
  {
    if os != [] {
      MultisetCounts(os[..|os| - 1], o);
      assert os == os[..|os| - 1] + [os[|os| - 1]];
    }
  }

  /** At every moment of every run, what is sent or held by a worker is what the fetches delivered. */
  lemma KnownIsDelivered(fetches: nat, stopped: bool, steps: seq<Action>, o: Outcome)
    requires Run(Init(fetches, stopped), steps)
    ensures Known(Exec(Init(fetches, stopped), steps), o) == multiset(Outcomes(steps))[o]
  {
    RunDelivers(Init(fetches, stopped), steps, o);
    TotalZero(Init(fetches, stopped).workers, IsUnsent(o));
    MultisetCounts(Outcomes(steps), o);
  }

  /**
   * Every fetch's result reaches the collector, and nothing else does: when a batch returns, what
   * it received is exactly what its fetches delivered, each chunk byte for byte.
   */
  lemma ReceivedIsDelivered(fetches: nat, stopped: bool, steps: seq<Action>)
    requires Run(Init(fetches, stopped), steps) && Exec(Init(fetches, stopped), steps).collector.Returned?
    ensures multiset(Exec(Init(fetches, stopped), steps).received) == multiset(Outcomes(steps))
  {
    var s := Exec(Init(fetches, stopped), steps);
    InitInv(fetches, stopped);
    RunInv(Init(fetches, stopped), steps);
    ReturnedExactly(s);
    forall o: Outcome
      ensures multiset(s.received)[o] == multiset(Outcomes(steps))[o]
    {
      KnownIsDelivered(fetches, stopped, steps, o);
      MultisetCounts(s.received, o);
      TotalZero(s.workers, IsUnsent(o));
    }
  }

  // ---- what a batch guarantees ----

  /**
   * The circuit breaker over every schedule: at no point of any run have more than
   * maxFailures + refillWorkers fetches of the batch failed.
   */
  lemma AtMostFourteenFailedFetches(fetches: nat, stopped: bool, steps: seq<Action>)
    requires Run(Init(fetches, stopped), steps)
    ensures Exec(Init(fetches, stopped), steps).failedFetches <= 14
  {
    InitInv(fetches, stopped);
    RunInv(Init(fetches, stopped), steps);
    UncountedAreUndecided(Exec(Init(fetches, stopped), steps).workers);
  }

  lemma {:induction false} UncountedAreUndecided(ws: seq<Worker>)
    ensures Total(ws, Uncounted) <= Total(ws, Undecided)
  {
    if ws != [] {
      UncountedAreUndecided(ws[..|ws| - 1]);
    }
  }

  /**
   * What runRefillBatch's return values mean: every result was sent exactly once and received
   * exactly once in order, `failures` is the final failCount and the number of failed fetches,
   * `saved` is the number of records the store took, and the records offered to the store are
   * the fetched chunks cut in order. No goroutine that could still send is left.
   */
  lemma ReturnedExactly(s: State)
    requires Inv(s) && s.collector.Returned?
    ensures s.received == s.sent
    ensures s.failures == s.failCount == s.failedFetches == Total(s.received, IsFailure)
    ensures s.saved == Total(s.attempts, Accepted)
    ensures RecordsOf(s.attempts) == Cuts(s.received)
    ensures AllExited(s) && s.resultsClosed
    ensures |s.received| <= s.fetches
    ensures s.failures <= 14
  {
    TotalZero(s.workers, HoldsFailure);
    TotalZero(s.workers, Uncounted);
    TotalZero(s.workers, Busy);
    assert s.received + s.results == s.received;
  }

  /**
   * A batch that was never stopped and did not trip the breaker performed every fetch: each of
   * the `fetches` jobs came back as a result.
   */
  lemma ReturnedComplete(s: State)
    requires Inv(s) && s.collector.Returned?
    ensures s.stopped || s.failures >= 10 || |s.received| == s.fetches
  {
    ReturnedExactly(s);
    TotalZero(s.workers, Busy);
    if !s.stopped {
      assert s.workers[0].Exited?;
    }
  }

  /** In step i of a run the producer finds at its check that the breaker has tripped with jobs left. */
  ghost predicate TripsAt(s: State, steps: seq<Action>, i: nat) {
    && i < |steps| && steps[i].ProducerCheck? && Run(s, steps[..i])
    && var t := Exec(s, steps[..i]);
       t.next < t.fetches && t.failCount >= 10
  }

  lemma {:induction false} StoppedStays(s: State, steps: seq<Action>)
    requires Run(s, steps) && s.stopped
    ensures Exec(s, steps).stopped
    decreases |steps|
  {
    if steps != [] {
      StoppedStays(Apply(s, steps[0]), steps[1..]);
    }
  }

  /** A producer that has quit hands out nothing more and checks nothing more. */
  lemma {:induction false} QuitStays(s: State, steps: seq<Action>)
    requires Run(s, steps) && (s.producer.Closing? || s.producer.Closed?)
    ensures Exec(s, steps).next == s.next && Exec(s, steps).fetches == s.fetches
    ensures forall i | 0 <= i < |steps| :: !steps[i].ProducerCheck?
    decreases |steps|
  {
    if steps != [] {
      QuitStays(Apply(s, steps[0]), steps[1..]);
      assert forall i | 1 <= i < |steps| :: steps[i] == steps[1..][i - 1];
    }
  }

  lemma TripsLater(s: State, steps: seq<Action>, i: nat)
    requires Run(s, steps) && 1 <= i <= |steps|
    ensures TripsAt(s, steps, i) <==> TripsAt(Apply(s, steps[0]), steps[1..], i - 1)
  {
    assert steps[..i][0] == steps[0] && steps[..i][1..] == steps[1..][..i - 1];
  }

  lemma QuitsNow(s: State, steps: seq<Action>)
    requires Shape(s) && Run(s, steps) && steps != [] && (s.producer.Check? || s.producer.Offer?) && !s.stopped
    requires Apply(s, steps[0]).producer.Closing?
    ensures Exec(s, steps).next < Exec(s, steps).fetches <==> exists i :: TripsAt(s, steps, i)
  {
    QuitStays(Apply(s, steps[0]), steps[1..]);
    assert Run(s, steps[..0]) && Exec(s, steps[..0]) == s;
    assert TripsAt(s, steps, 0) <==> s.next < s.fetches;
    forall i: nat | 1 <= i < |steps|
      ensures !TripsAt(s, steps, i)
    {
      assert steps[i] == steps[1..][i - 1];
    }
  }

  lemma {:induction false} QuitsExactly(s: State, steps: seq<Action>)
    requires Inv(s) && Run(s, steps) && (s.producer.Check? || s.producer.Offer?)
    requires var t := Exec(s, steps); !t.stopped && (t.producer.Closing? || t.producer.Closed?)
    ensures Exec(s, steps).next < Exec(s, steps).fetches <==> exists i :: TripsAt(s, steps, i)
    decreases |steps|
  {
    var a, rest := steps[0], steps[1..];
    var t := Apply(s, a);
    if s.stopped {
      StoppedStays(s, steps);
    }
    forall i: nat | 1 <= i <= |steps|
      ensures TripsAt(s, steps, i) <==> TripsAt(t, rest, i - 1)
    {
      TripsLater(s, steps, i);
    }
    if t.producer.Closing? {
      QuitsNow(s, steps);
    } else {
      StepInv(s, a);
      QuitsExactly(t, rest);
      if i: nat :| TripsAt(t, rest, i) {
        assert TripsAt(s, steps, i + 1);
      }
    }
  }

  /**
   * The breaker, exactly: a producer that nobody stopped quits with jobs left if and only if at one
   * of its checks at least maxFailures failures had been counted, in whatever order they came.
   */
  lemma BreakerExactly(fetches: nat, steps: seq<Action>)
    requires Run(Init(fetches, false), steps)
    requires var s := Exec(Init(fetches, false), steps); !s.stopped && (s.producer.Closing? || s.producer.Closed?)
    ensures Exec(Init(fetches, false), steps).next < fetches <==> exists i :: TripsAt(Init(fetches, false), steps, i)
  {
    InitInv(fetches, false);
    FetchesKeptByRun(Init(fetches, false), steps);
    QuitsExactly(Init(fetches, false), steps);
  }

  lemma {:induction false} FetchesKeptByRun(s: State, steps: seq<Action>)
    requires Run(s, steps)
    ensures Exec(s, steps).fetches == s.fetches
    decreases |steps|
  {
    if steps != [] {
      FetchesKeptByRun(Apply(s, steps[0]), steps[1..]);
    }
  }

  /** After close(results) no worker can send: a send on the closed channel is unreachable. */
  lemma NoSendAfterClose(s: State, w: nat)
    requires Inv(s) && s.resultsClosed
    ensures !Enabled(s, Send(w))
  {
  }

  /**
   * The collector is the store's only writer: at every moment of every run the records offered to
   * the store so far are the first ones of the chunks the collector has received, cut in order,
   * and only the rest of the chunk it is saving is missing.
   */
  lemma OnlyTheCollectorWrites(fetches: nat, stopped: bool, steps: seq<Action>)
    requires Run(Init(fetches, stopped), steps)
    ensures var s := Exec(Init(fetches, stopped), steps);
            && RecordsOf(s.attempts) <= Cuts(s.received)
            && (!s.collector.Saving? ==> RecordsOf(s.attempts) == Cuts(s.received))
            && (s.collector.Saving? ==> Cuts(s.received) == RecordsOf(s.attempts) + CutFrom(s.collector.data, s.collector.off))
  {
    InitInv(fetches, stopped);
    RunInv(Init(fetches, stopped), steps);
  }

  // ---- stop ----

  /** Once stopped, at most refillWorkers more fetches start, in every continuation. */
  lemma FewFetchesAfterStop(fetches: nat, stopped: bool, steps: seq<Action>)
    requires Run(Init(fetches, stopped), steps)
    ensures Exec(Init(fetches, stopped), steps).startedAfterStop <= 4
  {
    InitInv(fetches, stopped);
    RunInv(Init(fetches, stopped), steps);
  }

  /** No fetch has been started, and none can be. */
  ghost predicate Barren(s: State) {
    && s.stopped
    && (forall i | 0 <= i < |s.workers| :: s.workers[i].Receiving? || s.workers[i].HasJob? || s.workers[i].Exited?)
    && s.results == [] && !s.collector.Saving?
    && s.started == 0 && s.received == [] && s.saved == 0 && s.failures == 0 && s.attempts == []
  }

  lemma BarrenStep(s: State, a: Action)
    requires Barren(s) && Enabled(s, a)
    ensures Barren(Apply(s, a))
  {
  }

  lemma {:induction false} BarrenRun(s: State, steps: seq<Action>)
    requires Barren(s) && Run(s, steps)
    ensures Barren(Exec(s, steps))
    decreases |steps|
  {
    if steps != [] {
      BarrenStep(s, steps[0]);
      BarrenRun(Apply(s, steps[0]), steps[1..]);
    }
  }

  /** A batch begun after Stop starts no fetch and returns (0, 0), whatever the schedule. */
  lemma StoppedBatchDoesNothing(fetches: nat, steps: seq<Action>)
    requires Run(Init(fetches, true), steps)
    ensures var s := Exec(Init(fetches, true), steps);
            s.started == 0 && s.saved == 0 && s.failures == 0 && s.attempts == []
  {
    BarrenRun(Init(fetches, true), steps);
  }

  // ---- how much a batch can save ----

  /** Concatenation. */
  function Flat(rs: seq<Bytes>): Bytes {
    if rs == [] then [] else rs[0] + Flat(rs[1..])
  }

  /** The 256 bytes of the chunk from `at` on, or what is left of them. */
  predicate IsCut(data: Bytes, at: nat, record: Bytes) {
    at < |data| && record == data[at..if at + 256 <= |data| then at + 256 else |data|]
  }

  lemma {:induction false} CutAt(data: Bytes, off: nat, i: nat)
    requires i < |CutFrom(data, off)|
    ensures IsCut(data, off + 256 * i, CutFrom(data, off)[i])
    decreases i
  {
    if i > 0 {
      CutAt(data, off + ENTROPY_RECORD_BYTES, i - 1);
    }
  }

  lemma {:induction false} CutCount(data: Bytes, off: nat)
    ensures |CutFrom(data, off)| == if off < |data| then (|data| - off + 255) / 256 else 0
    decreases |data| - off
  {
    if off < |data| {
      CutCount(data, off + ENTROPY_RECORD_BYTES);
    }
  }

  /**
   * saveRecords loses, repeats and reorders no byte: it cuts ceil(n / 256) records, the i-th of
   * which are the 256 bytes from 256 i on, or what is left of them.
   */
  lemma {:induction false} CutsCoverTheChunk(data: Bytes, off: nat)
    ensures off <= |data| ==> Flat(CutFrom(data, off)) == data[off..]
    ensures |CutFrom(data, off)| == if off < |data| then (|data| - off + 255) / 256 else 0
    ensures forall i | 0 <= i < |CutFrom(data, off)| :: IsCut(data, off + 256 * i, CutFrom(data, off)[i])
    decreases |data| - off
  {
    forall i | 0 <= i < |CutFrom(data, off)|
      ensures IsCut(data, off + 256 * i, CutFrom(data, off)[i])
    {
      CutAt(data, off, i);
    }
    CutCount(data, off);
    if off < |data| {
      CutsCoverTheChunk(data, off + ENTROPY_RECORD_BYTES);
      var rest := CutFrom(data, off + ENTROPY_RECORD_BYTES);
      assert ([RecordAt(data, off)] + rest)[1..] == rest;
      if off + ENTROPY_RECORD_BYTES <= |data| {
        assert data[off..] == RecordAt(data, off) + data[off + ENTROPY_RECORD_BYTES..];
      }
    }
  }

  /** No fetch returned more than the chunk that was asked for. */
  ghost predicate ChunkSized(os: seq<Outcome>) {
    forall i | 0 <= i < |os| :: os[i].Fetched? ==> |os[i].data| <= 1024
  }

  lemma {:induction false} CutsBounded(os: seq<Outcome>)
    requires ChunkSized(os)
    ensures |Cuts(os)| <= RECORDS_PER_FETCH * |os|
  {
    if os != [] {
      CutsBounded(os[..|os| - 1]);
      var o := os[|os| - 1];
      if o.Fetched? {
        CutCount(o.data, 0);
      }
    }
  }

  lemma SavedBounded(s: State)
    requires Inv(s) && s.collector.Returned? && ChunkSized(s.received)
    ensures s.saved <= 4 * s.fetches
  {
    ReturnedExactly(s);
    CutsBounded(s.received);
    TotalAtMost(s.attempts, Accepted, 1);
    assert |RecordsOf(s.attempts)| == |s.attempts|;
  }

  /**
   * A batch returns (0, 0) exactly when no fetch failed and the store took nothing; without a stop
   * signal that means every one of its fetches succeeded and every record was refused.
   */
  lemma NothingHappened(s: State)
    requires Inv(s) && s.collector.Returned?
    ensures s.saved == 0 && s.failures == 0 <==>
            Total(s.received, IsFailure) == 0 && forall i | 0 <= i < |s.attempts| :: !s.attempts[i].ok
    ensures s.saved == 0 && s.failures == 0 && !s.stopped ==> |s.received| == s.fetches
  {
    ReturnedExactly(s);
    ReturnedComplete(s);
    TotalZero(s.attempts, Accepted);
  }

  /** What a caller of runRefillBatch may rely on when it returned after `steps`. */
  ghost predicate BatchContract(s: State, fetches: nat, stopped: bool, steps: seq<Action>) {
    && Run(Init(fetches, stopped), steps) && Exec(Init(fetches, stopped), steps) == s
    && multiset(s.received) == multiset(Outcomes(steps))
    && Inv(s) && s.collector.Returned? && s.fetches == fetches
    && s.failures <= 14
    && (stopped ==> s.stopped && s.saved == 0 && s.failures == 0 && s.attempts == [])
    && (ChunkSized(s.received) ==> s.saved <= 4 * fetches)
  }

  lemma BoundsMet(s: State)
    requires Inv(s) && s.collector.Returned?
    ensures s.failures <= 14 && (ChunkSized(s.received) ==> s.saved <= 4 * s.fetches)
  {
    ReturnedExactly(s);
    if ChunkSized(s.received) {
      SavedBounded(s);
    }
  }

  /** Every schedule of a batch that returns keeps the contract. */
  lemma EveryBatchKeepsContract(fetches: nat, stopped: bool, steps: seq<Action>)
    requires Run(Init(fetches, stopped), steps) && Exec(Init(fetches, stopped), steps).collector.Returned?
    ensures BatchContract(Exec(Init(fetches, stopped), steps), fetches, stopped, steps)
  {
    InitInv(fetches, stopped);
    RunInv(Init(fetches, stopped), steps);
    FetchesKeptByRun(Init(fetches, stopped), steps);
    ReceivedIsDelivered(fetches, stopped, steps);
    BoundsMet(Exec(Init(fetches, stopped), steps));
    if stopped {
      BarrenRun(Init(fetches, stopped), steps);
    }
  }

  /** The same, of a state some schedule returns in. */
  lemma SomeContract(fetches: nat, stopped: bool, s: State) returns (steps: seq<Action>)
    requires Reaches(Init(fetches, stopped), s) && s.collector.Returned?
    ensures BatchContract(s, fetches, stopped, steps)
  {
    steps :| Run(Init(fetches, stopped), steps) && Exec(Init(fetches, stopped), steps) == s;
    EveryBatchKeepsContract(fetches, stopped, steps);
  }

  /** The scheduler: any step of any goroutine that is enabled, or the environment's Stop. */
  method Pick(s: State) returns (a: Action)
    requires Inv(s) && !s.collector.Returned?
    ensures Enabled(s, a)
  {
    ghost var possible := Progress(s);
    a :| Enabled(s, a);
  }

  method TakeStep(s: State) returns (t: State, ghost a: Action)
    requires Inv(s) && !s.collector.Returned?
    ensures Enabled(s, a) && t == Apply(s, a)
    ensures Inv(t) && Descends(s, t)
  {
    var next := Pick(s);
    a := next;
    t := Apply(s, next);
    StepInv(s, a);
    StepTerminates(s, a);
  }

  /**
   * runRefillBatch under an arbitrary scheduler always returns: some schedule of the machine leads
   * from its start to the state it returns in, and its contract holds there.
   */
  method RunRefillBatch(fetches: nat, stopped: bool) returns (s: State, ghost steps: seq<Action>)
    ensures BatchContract(s, fetches, stopped, steps)
  {
    s, steps := Init(fetches, stopped), [];
    InitInv(fetches, stopped);
    while !s.collector.Returned?
      invariant Inv(s) && 0 <= WorkLeft(s)
      invariant Run(Init(fetches, stopped), steps) && Exec(Init(fetches, stopped), steps) == s
      decreases WorkLeft(s), BytesLeft(s)
    {
      ghost var a;
      s, a := TakeStep(s);
      RunExtends(Init(fetches, stopped), steps, a);
      steps := steps + [a];
    }
    EveryBatchKeepsContract(fetches, stopped, steps);
  }
}
