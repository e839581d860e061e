/**
 * The pool with everything that touches it, under arbitrary interleaving: the collector's refill
 * loop (internal/collector/scheduler.go, collectEntropy), which is the only writer, and the key
 * service's consumption (internal/keymanager/service.go, GenerateKey and ExportPrivateKey).
 */
module EntropySystem {
  import opened Tally
  import opened EntropyPool
  import B = RefillBatch

  const LOW_WATERMARK: nat := 200
  const HIGH_WATERMARK: nat := 1000
  const ENTROPY_PER_KEY: nat := 5
  const ENTROPY_PER_EXPORT: nat := 2

  // ---- the refill loop's decisions ----

  predicate NeedsRefill(count: nat) { count < LOW_WATERMARK }

  predicate KeepsGoing(count: nat, failures: nat) { count < HIGH_WATERMARK && failures < B.MAX_FAILURES }

  /** How many chunks it takes to get from `count` to the high watermark, rounded up. */
  function FetchesFor(count: nat): nat
    requires count < HIGH_WATERMARK
  {
    (HIGH_WATERMARK - count + B.RECORDS_PER_FETCH - 1) / B.RECORDS_PER_FETCH
  }

  predicate GivesUp(saved: nat, fails: nat) { saved == 0 && fails == 0 }

  predicate Announces(count: nat) { count >= HIGH_WATERMARK }

  // ---- the system ----

  datatype Call = GenerateKey | ExportPrivateKey

  function Price(c: Call): nat { if c.GenerateKey? then ENTROPY_PER_KEY else ENTROPY_PER_EXPORT }

  /** A call that got past ConsumeEntropy, whether or not its later steps succeeded. */
  datatype Delivery = Delivery(call: Call, ids: set<Id>, completed: bool)

  function Paid(d: Delivery): nat { Price(d.call) }

  /** Where the collector's goroutine is. `count` and `failures` are collectEntropy's locals. */
  datatype Refill =
    | Idle
    | Looping(count: nat, failures: nat)
    | InBatch(count: nat, failures: nat, saved: nat)
    | Leaving(count: nat)

  datatype State = State(
    pool: Pool,
    refill: Refill,
    // History.
    deliveries: seq<Delivery>,
    consumedAtStart: nat,      // records consumed when the current refill read the pool
    announced: seq<nat>,       // the counts published as pool.ok
    marks: seq<nat>)           // consumedAtStart of each refill that published

  datatype Action =
    | Poll
    | BeginBatch
    | Save(data: Bytes)
    | EndBatch(fails: nat)
    | LeaveLoop
    | Finish(published: bool)
    | Consume(call: Call, ids: set<Id>, completed: bool)
    | ConsumeFails(call: Call)

  function Init(): State {
    State(Pool(map[], 0), Idle, [], 0, [], [])
  }

  function Consumed(s: State): nat { |Used(s.pool)| }

  predicate Enabled(s: State, a: Action) {
    match a
    case Poll => s.refill.Idle?
    case BeginBatch => s.refill.Looping? && KeepsGoing(s.refill.count, s.refill.failures)
    case Save(_) => s.refill.InBatch?
    case EndBatch(fails) => s.refill.InBatch? && fails <= B.MAX_FAILURES + B.REFILL_WORKERS
    case LeaveLoop => s.refill.Looping? && !KeepsGoing(s.refill.count, s.refill.failures)
    case Finish(_) => s.refill.Leaving?
    case Consume(call, ids, _) => ids <= Unused(s.pool) && |ids| == Price(call)
    case ConsumeFails(_) => true
  }

  function Apply(s: State, a: Action): State
    requires Enabled(s, a)
  {
    match a
    case Poll =>
      var count := |Unused(s.pool)|;
      if NeedsRefill(count) then s.(refill := Looping(count, 0), consumedAtStart := Consumed(s)) else s
    case BeginBatch =>
      s.(refill := InBatch(s.refill.count, s.refill.failures, 0))
    case Save(data) =>
      s.(pool := Insert(s.pool, data), refill := s.refill.(saved := s.refill.saved + 1))
    case EndBatch(fails) =>
      var InBatch(count, failures, saved) := s.refill;
      s.(refill := if GivesUp(saved, fails) then Leaving(count) else Looping(count + saved, failures + fails))
    case LeaveLoop =>
      s.(refill := Leaving(s.refill.count))
    case Finish(published) =>
      var t := s.(refill := Idle);
      if Announces(s.refill.count) && published then
        t.(announced := s.announced + [s.refill.count], marks := s.marks + [s.consumedAtStart])
      else t
    case Consume(call, ids, completed) =>
      s.(pool := MarkUsed(s.pool, ids), deliveries := s.deliveries + [Delivery(call, ids, completed)])
    case ConsumeFails(_) =>
      s
  }

  predicate Run(s: State, steps: seq<Action>)
    decreases |steps|
  {
    steps == [] || (Enabled(s, steps[0]) && Run(Apply(s, steps[0]), steps[1..]))
  }

  function Exec(s: State, steps: seq<Action>): State
    requires Run(s, steps)
    decreases |steps|
  {
    if steps == [] then s else Exec(Apply(s, steps[0]), steps[1..])
  }

  lemma {:induction false} RunConcat(s: State, xs: seq<Action>, ys: seq<Action>)
    requires Run(s, xs) && Run(Exec(s, xs), ys)
    ensures Run(s, xs + ys) && Exec(s, xs + ys) == Exec(Exec(s, xs), ys)
    decreases |xs|
  {
    if xs == [] {
      assert xs + ys == ys;
    } else {
      RunConcat(Apply(s, xs[0]), xs[1..], ys);
      assert (xs + ys)[1..] == xs[1..] + ys;
    }
  }

  ghost predicate Reaches(s: State, t: State) {
    exists steps {:trigger Run(s, steps)} :: Run(s, steps) && Exec(s, steps) == t
  }

  lemma ReachesSelf(s: State)
    ensures Reaches(s, s)
  {
    assert Run(s, []);
  }

  lemma Step(s: State, t: State, a: Action)
    requires Reaches(s, t) && Enabled(t, a)
    ensures Reaches(s, Apply(t, a))
  {
    var steps :| Run(s, steps) && Exec(s, steps) == t;
    assert [a][1..] == [];
    RunConcat(s, steps, [a]);
    assert Run(s, steps + [a]);
  }

  // ---- invariants ----

  /** Every record handed out so far. */
  function Claimed(ds: seq<Delivery>): set<Id> {
    if ds == [] then {} else Claimed(ds[..|ds| - 1]) + ds[|ds| - 1].ids
  }

  ghost predicate Apart(ds: seq<Delivery>) {
    forall i, j | 0 <= i < j < |ds| :: ds[i].ids !! ds[j].ids
  }

  lemma {:induction false} ClaimedHoldsEach(ds: seq<Delivery>, i: nat)
    requires i < |ds|
    ensures ds[i].ids <= Claimed(ds)
  {
    if i < |ds| - 1 {
      ClaimedHoldsEach(ds[..|ds| - 1], i);
    }
  }

  /** Every used record went to exactly one delivery, and the deliveries paid for them all. */
  ghost predicate Ledger(s: State) {
    && WellFormed(s.pool)
    && Used(s.pool) == Claimed(s.deliveries)
    && Apart(s.deliveries)
    && Consumed(s) == Total(s.deliveries, Paid)
  }

  /** The collector's running count: what it has put into the pool and nobody has taken since it looked. */
  function Believed(r: Refill): nat
    requires !r.Idle?
  {
    if r.InBatch? then r.count + r.saved else r.count
  }

  ghost predicate Snapshot(s: State) {
    !s.refill.Idle? ==>
      && s.consumedAtStart <= Consumed(s)
      && Believed(s.refill) == |Unused(s.pool)| + (Consumed(s) - s.consumedAtStart)
  }

  ghost predicate Spaced(marks: seq<nat>) {
    forall i | 0 < i < |marks| :: marks[i - 1] + 801 <= marks[i]
  }

  ghost predicate Hysteresis(s: State) {
    && |s.announced| == |s.marks|
    && Spaced(s.marks)
    && (s.marks != [] ==>
          var last := s.marks[|s.marks| - 1];
          && last <= Consumed(s)
          && last + HIGH_WATERMARK <= |Unused(s.pool)| + Consumed(s)
          && (!s.refill.Idle? ==> last + 801 <= s.consumedAtStart))
    && (forall i | 0 <= i < |s.announced| :: s.announced[i] >= HIGH_WATERMARK)
  }

  ghost predicate Inv(s: State) {
    Ledger(s) && Snapshot(s) && Hysteresis(s)
  }

  lemma ApartAppend(ds: seq<Delivery>, d: Delivery)
    requires Apart(ds) && Claimed(ds) !! d.ids
    ensures Apart(ds + [d])
  {
    forall i | 0 <= i < |ds|
      ensures ds[i].ids !! d.ids
    {
      ClaimedHoldsEach(ds, i);
    }
  }

  lemma ConsumeLedger(s: State, call: Call, ids: set<Id>, completed: bool)
    requires Ledger(s) && Enabled(s, Consume(call, ids, completed))
    ensures Ledger(Apply(s, Consume(call, ids, completed)))
  {
    var d := Delivery(call, ids, completed);
    MarkUsedMoves(s.pool, ids);
    TotalAppend(s.deliveries, d, Paid);
    ApartAppend(s.deliveries, d);
    assert (s.deliveries + [d])[..|s.deliveries|] == s.deliveries;
  }

  lemma StepLedger(s: State, a: Action)
    requires Ledger(s) && Enabled(s, a)
    ensures Ledger(Apply(s, a))
  {
    if a.Save? {
      InsertAddsOne(s.pool, a.data);
    } else if a.Consume? {
      ConsumeLedger(s, a.call, a.ids, a.completed);
    }
  }

  /** A save adds one unused record; a consumption turns unused records into used ones. */
  lemma PoolSizes(s: State, a: Action)
    requires WellFormed(s.pool) && Enabled(s, a)
    ensures var t := Apply(s, a);
            && |Unused(t.pool)| + Consumed(t) == |Unused(s.pool)| + Consumed(s) + (if a.Save? then 1 else 0)
            && Consumed(s) <= Consumed(t)
            && (!a.Consume? ==> Consumed(t) == Consumed(s))
  {
    if a.Save? {
      InsertAddsOne(s.pool, a.data);
    } else if a.Consume? {
      MarkUsedMoves(s.pool, a.ids);
    }
  }

  lemma StepSnapshot(s: State, a: Action)
    requires WellFormed(s.pool) && Snapshot(s) && Enabled(s, a)
    ensures Snapshot(Apply(s, a))
  {
    PoolSizes(s, a);
  }

  lemma StepHysteresis(s: State, a: Action)
    requires WellFormed(s.pool) && Snapshot(s) && Hysteresis(s) && Enabled(s, a)
    ensures Hysteresis(Apply(s, a))
  {
    PoolSizes(s, a);
    if a.Finish? {
      FinishHysteresis(s, a.published);
    } else {
      assert Apply(s, a).marks == s.marks && Apply(s, a).announced == s.announced;
    }
  }

  lemma FinishHysteresis(s: State, published: bool)
    requires Snapshot(s) && Hysteresis(s) && Enabled(s, Finish(published))
    ensures Hysteresis(Apply(s, Finish(published)))
  {
    var t := Apply(s, Finish(published));
    assert t.pool == s.pool;
  }

  lemma StepInv(s: State, a: Action)
    requires Inv(s) && Enabled(s, a)
    ensures Inv(Apply(s, a))
  {
    StepLedger(s, a);
    StepSnapshot(s, a);
    StepHysteresis(s, a);
  }

  lemma {:induction false} RunInv(s: State, steps: seq<Action>)
    requires Inv(s) && Run(s, steps)
    ensures Inv(Exec(s, steps))
    decreases |steps|
  {
    if steps != [] {
      StepInv(s, steps[0]);
      RunInv(Apply(s, steps[0]), steps[1..]);
    }
  }

  // ---- what holds of every run ----

  function IsGenerate(d: Delivery): nat { if d.call.GenerateKey? then 1 else 0 }
  function IsExport(d: Delivery): nat { if d.call.ExportPrivateKey? then 1 else 0 }

  lemma {:induction false} PaidByKind(ds: seq<Delivery>)
    ensures Total(ds, Paid) == 5 * Total(ds, IsGenerate) + 2 * Total(ds, IsExport)
  {
    if ds != [] {
      PaidByKind(ds[..|ds| - 1]);
    }
  }

  /** How many of the steps saved a record. */
  function Saves(steps: seq<Action>): nat {
    if steps == [] then 0 else (if steps[0].Save? then 1 else 0) + Saves(steps[1..])
  }

  lemma {:induction false} RowsAreSaves(s: State, steps: seq<Action>)
    requires Inv(s) && Run(s, steps)
    ensures |Exec(s, steps).pool.rows| == |s.pool.rows| + Saves(steps)
    decreases |steps|
  {
    if steps != [] {
      var a := steps[0];
      if a.Save? {
        InsertAddsOne(s.pool, a.data);
      } else if a.Consume? {
        MarkUsedMoves(s.pool, a.ids);
      }
      StepInv(s, a);
      RowsAreSaves(Apply(s, a), steps[1..]);
    }
  }

  /**
   * Conservation over every interleaving: each record ever saved is either unused or was handed to
   * exactly one GenerateKey (5 each) or ExportPrivateKey (2 each) that got past ConsumeEntropy.
   */
  lemma PoolConserved(steps: seq<Action>)
    requires Run(Init(), steps)
    ensures var s := Exec(Init(), steps);
            && Saves(steps) == |Unused(s.pool)| + 5 * Total(s.deliveries, IsGenerate) + 2 * Total(s.deliveries, IsExport)
            && Apart(s.deliveries)
            && forall d | d in s.deliveries :: d.ids <= Used(s.pool)
  {
    var s := Exec(Init(), steps);
    RunInv(Init(), steps);
    RowsAreSaves(Init(), steps);
    Partition(s.pool);
    PaidByKind(s.deliveries);
    forall i | 0 <= i < |s.deliveries|
      ensures s.deliveries[i].ids <= Used(s.pool)
    {
      ClaimedHoldsEach(s.deliveries, i);
    }
  }

  /** A record that was handed out stays used, and no record ever disappears. */
  lemma {:induction false} UsedNeverReverts(s: State, steps: seq<Action>)
    requires Inv(s) && Run(s, steps)
    ensures Used(s.pool) <= Used(Exec(s, steps).pool) && s.pool.rows.Keys <= Exec(s, steps).pool.rows.Keys
    decreases |steps|
  {
    if steps != [] {
      var a := steps[0];
      if a.Save? {
        InsertAddsOne(s.pool, a.data);
      } else if a.Consume? {
        MarkUsedMoves(s.pool, a.ids);
      }
      StepInv(s, a);
      UsedNeverReverts(Apply(s, a), steps[1..]);
    }
  }

  /**
   * The refill loop's decisions in numbers: a poll starts a refill exactly below 200 unused records;
   * another batch begins exactly below 1000 records and below 10 failures, and the loop is left
   * exactly otherwise, or right after a batch that saved and failed nothing; a refill that has ended
   * is announced exactly from 1000 records on.
   */
  lemma RefillDecisions(s: State, fails: nat, published: bool)
    ensures Enabled(s, Poll) ==> (!Apply(s, Poll).refill.Idle? <==> |Unused(s.pool)| < 200)
    ensures s.refill.Looping? ==>
              (Enabled(s, BeginBatch) <==> s.refill.count < 1000 && s.refill.failures < 10)
              && (Enabled(s, LeaveLoop) <==> s.refill.count >= 1000 || s.refill.failures >= 10)
    ensures Enabled(s, EndBatch(fails)) ==>
              (Apply(s, EndBatch(fails)).refill.Leaving? <==> s.refill.saved == 0 && fails == 0)
    ensures Enabled(s, Finish(published)) ==>
              Apply(s, Finish(published)).announced
              == s.announced + if s.refill.count >= 1000 && published then [s.refill.count] else []
  {
  }

  /** A record keeps the bytes it was saved with, over every run, whatever else is saved and consumed. */
  lemma {:induction false} BytesAreKept(s: State, steps: seq<Action>)
    requires Inv(s) && Run(s, steps)
    ensures forall id | id in s.pool.rows :: id in Exec(s, steps).pool.rows && Exec(s, steps).pool.rows[id].data == s.pool.rows[id].data
    decreases |steps|
  {
    if steps != [] {
      StepKeepsBytes(s, steps[0]);
      StepInv(s, steps[0]);
      BytesAreKept(Apply(s, steps[0]), steps[1..]);
    }
  }

  lemma StepKeepsBytes(s: State, a: Action)
    requires WellFormed(s.pool) && Enabled(s, a)
    ensures var t := Apply(s, a);
            forall id | id in s.pool.rows :: id in t.pool.rows && t.pool.rows[id].data == s.pool.rows[id].data
  {
    if a.Save? {
      InsertKeeps(s.pool, a.data);
    } else if a.Consume? {
      MarkUsedKeeps(s.pool, a.ids);
    }
  }

  /** The record a save creates is found under its id, with its bytes, at the end of every run. */
  lemma SavedBytesAreKept(before: seq<Action>, data: Bytes, after: seq<Action>)
    requires Run(Init(), before) && Enabled(Exec(Init(), before), Save(data))
    requires Run(Apply(Exec(Init(), before), Save(data)), after)
    ensures var s := Exec(Init(), before);
            var t := Exec(Apply(s, Save(data)), after);
            s.pool.nextId !in s.pool.rows && s.pool.nextId in t.pool.rows && t.pool.rows[s.pool.nextId].data == data
  {
    var s := Exec(Init(), before);
    RunInv(Init(), before);
    StepInv(s, Save(data));
    InsertKeeps(s.pool, data);
    BytesAreKept(Apply(s, Save(data)), after);
  }

  /**
   * Hysteresis over every run: between the start of a refill that announced pool.ok and the start
   * of the next one that does, at least highWatermark - lowWatermark + 1 records were consumed.
   */
  lemma AnnouncementsAreSpaced(steps: seq<Action>)
    requires Run(Init(), steps)
    ensures var s := Exec(Init(), steps);
            Spaced(s.marks) && |s.marks| == |s.announced| && (s.announced != [] ==> Consumed(s) >= (|s.announced| - 1) * 801)
  {
    RunInv(Init(), steps);
    if Exec(Init(), steps).marks != [] {
      SpacedGrows(Exec(Init(), steps).marks);
    }
  }

  lemma {:induction false} SpacedGrows(marks: seq<nat>)
    requires Spaced(marks) && marks != []
    ensures marks[|marks| - 1] >= (|marks| - 1) * 801
  {
    if |marks| > 1 {
      SpacedGrows(marks[..|marks| - 1]);
    }
  }

  /** Any refill that starts after an announcement, announcing or not, starts 801 consumed records later. */
  lemma NextRefillIsFar(s: State)
    requires Inv(s) && s.marks != [] && Enabled(s, Poll) && !Apply(s, Poll).refill.Idle?
    ensures Apply(s, Poll).consumedAtStart >= s.marks[|s.marks| - 1] + 801
  {
  }

  /**
   * The announced count is collectEntropy's local, not a fresh look at the pool: it exceeds the
   * pool by exactly what was consumed while the refill ran.
   */
  lemma AnnouncedCountIsStale(s: State)
    requires Inv(s) && Enabled(s, Finish(true)) && Announces(s.refill.count)
    ensures var t := Apply(s, Finish(true));
            t.announced == s.announced + [|Unused(t.pool)| + (Consumed(t) - s.consumedAtStart)]
  {
  }

  // ---- how far a refill can go ----

  /** No batch of the run saves more than its fetches can bring when chunks are at most 1024 bytes. */
  ghost predicate ChunkSized(s: State, steps: seq<Action>)
    requires Run(s, steps)
    decreases |steps|
  {
    steps == []
    || ((steps[0].Save? && s.refill.count < HIGH_WATERMARK ==>
           s.refill.saved < B.RECORDS_PER_FETCH * FetchesFor(s.refill.count))
        && ChunkSized(Apply(s, steps[0]), steps[1..]))
  }

  const TOP: nat := HIGH_WATERMARK + B.RECORDS_PER_FETCH - 1

  const MOST_FAILURES: nat := 2 * B.MAX_FAILURES + B.REFILL_WORKERS - 1

  ghost predicate FailuresBounded(r: Refill) {
    match r
    case Looping(_, failures) => failures <= MOST_FAILURES
    case InBatch(count, failures, _) => KeepsGoing(count, failures)
    case _ => true
  }

  ghost predicate CountBounded(s: State) {
    && (forall i | 0 <= i < |s.announced| :: s.announced[i] <= TOP)
    && (match s.refill
        case Idle => true
        case Looping(count, _) => count <= TOP
        case InBatch(count, _, saved) => count < HIGH_WATERMARK && saved <= B.RECORDS_PER_FETCH * FetchesFor(count)
        case Leaving(count) => count <= TOP)
  }

  lemma FetchesReach(count: nat)
    requires count < HIGH_WATERMARK
    ensures 1000 <= count + 4 * FetchesFor(count) <= 1003
  {
  }

  lemma StepCountBounded(s: State, a: Action)
    requires CountBounded(s) && Enabled(s, a)
    requires a.Save? ==> s.refill.saved < B.RECORDS_PER_FETCH * FetchesFor(s.refill.count)
    ensures CountBounded(Apply(s, a))
  {
    if s.refill.InBatch? {
      FetchesReach(s.refill.count);
    }
  }

  lemma {:induction false} RunCountBounded(s: State, steps: seq<Action>)
    requires CountBounded(s) && Run(s, steps) && ChunkSized(s, steps)
    ensures CountBounded(Exec(s, steps))
    decreases |steps|
  {
    if steps != [] {
      StepCountBounded(s, steps[0]);
      RunCountBounded(Apply(s, steps[0]), steps[1..]);
    }
  }

  lemma {:induction false} RunFailuresBounded(s: State, steps: seq<Action>)
    requires FailuresBounded(s.refill) && Run(s, steps)
    ensures FailuresBounded(Exec(s, steps).refill)
    decreases |steps|
  {
    if steps != [] {
      RunFailuresBounded(Apply(s, steps[0]), steps[1..]);
    }
  }

  /**
   * With chunks of at most 1024 bytes every count ever announced is within three records of the
   * high watermark, and no refill counts more than 23 failures, whatever is consumed meanwhile.
   */
  lemma RefillsAreBounded(steps: seq<Action>)
    requires Run(Init(), steps)
    ensures var s := Exec(Init(), steps);
            && (s.refill.Looping? || s.refill.InBatch? ==> s.refill.failures <= 23)
            && (forall i | 0 <= i < |s.announced| :: 1000 <= s.announced[i])
            && (ChunkSized(Init(), steps) ==> forall i | 0 <= i < |s.announced| :: s.announced[i] <= 1003)
  {
    RunInv(Init(), steps);
    RunFailuresBounded(Init(), steps);
    if ChunkSized(Init(), steps) {
      RunCountBounded(Init(), steps);
    }
  }
}
