/**
 * runFanIn (internal/audit/suites.go): one producer per closure, a channel with room for all of
 * them, a closer and a collector that restores the input order, scheduled in any order.
 */
module FanIn {
  import opened Tally

  datatype Message<+T> = Message(idx: nat, items: seq<T>)

  datatype Producer = Running | Sending | Done

  datatype State<T> = State(
    outputs: seq<seq<T>>,      // what each closure returns
    producers: seq<Producer>,
    channel: seq<Message<T>>,
    closed: bool,
    groups: seq<seq<T>>,
    finished: bool,
    arrived: seq<bool>)        // history: whose message has been received

  datatype Action = Compute(i: nat) | Send(i: nat) | CloseChannel | Receive | Finish

  function Init<T>(outputs: seq<seq<T>>): State<T> {
    var k := |outputs|;
    State(outputs, seq(k, _ => Running), [], false, seq(k, _ => []), false, seq(k, _ => false))
  }

  predicate AllDone<T>(s: State<T>) {
    forall i | 0 <= i < |s.producers| :: s.producers[i].Done?
  }

  predicate Enabled<T>(s: State<T>, a: Action) {
    match a
    case Compute(i) => i < |s.producers| && s.producers[i].Running?
    case Send(i) => i < |s.producers| && i < |s.outputs| && s.producers[i].Sending? && |s.channel| < |s.outputs|
    case CloseChannel => AllDone(s) && !s.closed
    case Receive => s.channel != [] && s.channel[0].idx < |s.groups| && s.channel[0].idx < |s.arrived| && !s.finished
    case Finish => s.channel == [] && s.closed && !s.finished
  }

  function Apply<T>(s: State<T>, a: Action): State<T>
    requires Enabled(s, a)
  {
    match a
    case Compute(i) => s.(producers := s.producers[i := Sending])
    case Send(i) => s.(producers := s.producers[i := Done], channel := s.channel + [Message(i, s.outputs[i])])
    case CloseChannel => s.(closed := true)
    case Receive =>
      var m := s.channel[0];
      s.(channel := s.channel[1..], groups := s.groups[m.idx := m.items], arrived := s.arrived[m.idx := true])
    case Finish => s.(finished := true)
  }

  predicate Run<T>(s: State<T>, steps: seq<Action>)
    decreases |steps|
  {
    steps == [] || (Enabled(s, steps[0]) && Run(Apply(s, steps[0]), steps[1..]))
  }

  function Exec<T>(s: State<T>, steps: seq<Action>): State<T>
    requires Run(s, steps)
    decreases |steps|
  {
    if steps == [] then s else Exec(Apply(s, steps[0]), steps[1..])
  }

  // ---- invariant ----

  function IsDone(p: Producer): nat { if p.Done? then 1 else 0 }

  function IsTrue(b: bool): nat { if b then 1 else 0 }

  ghost predicate Shape<T>(s: State<T>) {
    |s.producers| == |s.groups| == |s.arrived| == |s.outputs|
  }

  /** A message in the channel is its producer's output, sent once and not received yet. */
  ghost predicate InTransit<T>(s: State<T>)
    requires Shape(s)
  {
    && (forall j | 0 <= j < |s.channel| ::
          var m := s.channel[j];
          m.idx < |s.outputs| && m.items == s.outputs[m.idx] && s.producers[m.idx].Done? && !s.arrived[m.idx])
    && (forall j, l | 0 <= j < l < |s.channel| :: s.channel[j].idx != s.channel[l].idx)
  }

  ghost predicate Inv<T>(s: State<T>) {
    && Shape(s)
    && InTransit(s)
    && (forall i | 0 <= i < |s.arrived| && s.arrived[i] :: s.producers[i].Done? && s.groups[i] == s.outputs[i])
    && |s.channel| + Total(s.arrived, IsTrue) == Total(s.producers, IsDone)
    && (s.closed ==> AllDone(s))
    && (s.finished ==> s.closed && s.channel == [])
  }

  lemma InitInv<T>(outputs: seq<seq<T>>)
    ensures Inv(Init(outputs))
  {
    TotalZero(Init(outputs).arrived, IsTrue);
    TotalZero(Init(outputs).producers, IsDone);
  }

  lemma SendInv<T>(s: State<T>, i: nat)
    requires Inv(s) && Enabled(s, Send(i))
    ensures Inv(Apply(s, Send(i)))
  {
    TotalUpdate(s.producers, i, Done, IsDone);
  }

  lemma ReceiveInv<T>(s: State<T>)
    requires Inv(s) && Enabled(s, Receive)
    ensures Inv(Apply(s, Receive))
  {
    var t, idx := Apply(s, Receive), s.channel[0].idx;
    TotalUpdate(s.arrived, idx, true, IsTrue);
    assert forall j | 0 <= j < |t.channel| :: t.channel[j] == s.channel[j + 1] && t.channel[j].idx != idx;
  }

  lemma StepInv<T>(s: State<T>, a: Action)
    requires Inv(s) && Enabled(s, a)
    ensures Inv(Apply(s, a))
  {
    match a
    case Compute(i) => TotalUpdate(s.producers, i, Sending, IsDone);
    case Send(i) => SendInv(s, i);
    case Receive => ReceiveInv(s);
    case _ =>
  }

  lemma {:induction false} RunInv<T>(s: State<T>, steps: seq<Action>)
    requires Inv(s) && Run(s, steps)
    ensures Inv(Exec(s, steps)) && Exec(s, steps).outputs == s.outputs
    decreases |steps|
  {
    if steps != [] {
      StepInv(s, steps[0]);
      RunInv(Apply(s, steps[0]), steps[1..]);
    }
  }

  // ---- guarantees ----

  /** A producer that has its result can always send it: the buffer never blocks anyone. */
  lemma NoProducerBlocks<T>(s: State<T>, i: nat)
    requires Inv(s) && i < |s.producers| && s.producers[i].Sending?
    ensures Enabled(s, Send(i)) && !s.closed
  {
    TotalMissesOne(s.producers, IsDone, i);
  }

  /** Until the collector is done, some goroutine can move. */
  lemma Progress<T>(s: State<T>) returns (a: Action)
    requires Inv(s) && !s.finished
    ensures Enabled(s, a)
  {
    if s.channel != [] {
      assert s.channel[0].idx < |s.outputs|;
      return Receive;
    }
    if i: nat :| i < |s.producers| && !s.producers[i].Done? {
      if s.producers[i].Running? {
        return Compute(i);
      }
      NoProducerBlocks(s, i);
      return Send(i);
    }
    return if s.closed then Finish else CloseChannel;
  }

  function Rank(p: Producer): nat { match p case Running => 3 case Sending => 2 case Done => 0 }

  function WorkLeft<T>(s: State<T>): nat {
    Total(s.producers, Rank) + |s.channel| + (if s.closed then 0 else 1) + if s.finished then 0 else 1
  }

  lemma StepTerminates<T>(s: State<T>, a: Action)
    requires Enabled(s, a)
    ensures WorkLeft(Apply(s, a)) < WorkLeft(s)
  {
    match a
    case Compute(i) => TotalUpdate(s.producers, i, Sending, Rank);
    case Send(i) => TotalUpdate(s.producers, i, Done, Rank);
    case _ =>
  }

  function Flatten<T>(gs: seq<seq<T>>): seq<T> {
    if gs == [] then [] else Flatten(gs[..|gs| - 1]) + gs[|gs| - 1]
  }

  /** Where the items of group i start in the concatenation. */
  function Start<T>(gs: seq<seq<T>>, i: nat): nat
    requires i <= |gs|
  {
    Total(gs[..i], (g: seq<T>) => |g|)
  }

  /** Item j of group i is found after all items of the groups before it. */
  lemma {:induction false} FlattenAt<T>(gs: seq<seq<T>>, i: nat, j: nat)
    requires i < |gs| && j < |gs[i]|
    ensures |Flatten(gs)| == Start(gs, |gs|) && Start(gs, i) + j < |Flatten(gs)| && Flatten(gs)[Start(gs, i) + j] == gs[i][j]
  {
    var init := gs[..|gs| - 1];
    FlattenLength(gs);
    FlattenLength(init);
    assert gs[..|gs|] == gs && init[..|init|] == init;
    if i == |gs| - 1 {
      assert gs[..i] == init;
    } else {
      assert gs[..i] == init[..i];
      FlattenAt(init, i, j);
    }
  }

  lemma {:induction false} FlattenLength<T>(gs: seq<seq<T>>)
    ensures |Flatten(gs)| == Start(gs, |gs|)
  {
    assert gs[..|gs|] == gs;
    if gs != [] {
      var init := gs[..|gs| - 1];
      assert init[..|init|] == init;
      FlattenLength(init);
    }
  }

  /** When the collector is done, every group is where its closure was, in every run. */
  lemma FinishedInOrder<T>(s: State<T>)
    requires Inv(s) && s.finished
    ensures s.groups == s.outputs
  {
    forall i | 0 <= i < |s.arrived|
      ensures s.arrived[i]
    {
      if !s.arrived[i] {
        TotalMissesOne(s.arrived, IsTrue, i);
        AllDoneCount(s.producers);
      }
    }
  }

  lemma {:induction false} AllDoneCount(ps: seq<Producer>)
    requires forall i | 0 <= i < |ps| :: ps[i].Done?
    ensures Total(ps, IsDone) == |ps|
  {
    if ps != [] {
      AllDoneCount(ps[..|ps| - 1]);
    }
  }

  /** Every schedule that finishes yields the sequential concatenation of the closures' results. */
  lemma RefinesSequential<T>(outputs: seq<seq<T>>, steps: seq<Action>)
    requires Run(Init(outputs), steps) && Exec(Init(outputs), steps).finished
    ensures Flatten(Exec(Init(outputs), steps).groups) == Flatten(outputs)
  {
    InitInv(outputs);
    RunInv(Init(outputs), steps);
    FinishedInOrder(Exec(Init(outputs), steps));
  }

  /** runFanIn under an arbitrary scheduler: it terminates with the closures' results in order. */
  method RunFanIn<T>(outputs: seq<seq<T>>) returns (metrics: seq<T>)
    ensures metrics == Flatten(outputs) && |metrics| == Start(outputs, |outputs|)
    ensures forall i: nat, j: nat {:trigger outputs[i][j]} | i < |outputs| && j < |outputs[i]| ::
              Start(outputs, i) + j < |metrics| && metrics[Start(outputs, i) + j] == outputs[i][j]
  {
    var s := Init(outputs);
    InitInv(outputs);
    while !s.finished
      invariant Inv(s) && s.outputs == outputs
      decreases WorkLeft(s)
    {
      ghost var possible := Progress(s);
      var a :| Enabled(s, a);
      StepInv(s, a);
      StepTerminates(s, a);
      s := Apply(s, a);
    }
    FinishedInOrder(s);
    metrics := [];
    var i := 0;
    while i < |s.groups|
      invariant 0 <= i <= |s.groups| && metrics == Flatten(s.groups[..i])
    {
      assert s.groups[..i + 1][..i] == s.groups[..i];
      metrics := metrics + s.groups[i];
      i := i + 1;
    }
    assert s.groups[..i] == s.groups;
    FlattenLength(outputs);
    forall i: nat, j: nat | i < |outputs| && j < |outputs[i]|
      ensures Start(outputs, i) + j < |metrics| && metrics[Start(outputs, i) + j] == outputs[i][j]
    {
      FlattenAt(outputs, i, j);
    }
  }
}
