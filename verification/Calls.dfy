/**
 * One call of Channel() (internal/messaging/connection.go) inside runs of the Lifecycle machine:
 * it ends, the channel it returns was alive during it, and failures are not sticky.
 */
module Calls {
  import opened Lifecycle
  import opened Options

  // ---- the holder of the mutex moves ----

  function PcRank(pc: Pc): nat {
    match pc
    case Free => 0
    case Declaring => 1
    case Connected => 2
    case HasChannel(_, _) => 3
    case Abandoning(_, _) => 3
    case HasSession(_) => 4
    case Dialing => 5
    case NeedDial => 6
    case Reopening => 5
    case ReopenCheck => 6
    case NeedReopen => 7
    case SessionLive => 8
    case Entered => 9
  }

  predicate InsideMutex(a: Action) {
    a.CheckSession? || a.CheckChannel? || a.BeginReopen? || a.CheckCache? || a.DialFails? || a.DialNil? || a.DialOk?
    || a.OpenFails? || a.OpenNil? || a.OpenOk? || a.Abandon? || a.Install? || a.Topology? || a.TopologyOk? || a.TopologyFails?
  }

  /** The step the holder takes next when the broker does what it still can. */
  function NextStep(s: State): Action
    requires !s.pc.Free?
  {
    match s.pc
    case Entered => CheckSession
    case SessionLive => CheckChannel
    case NeedReopen => BeginReopen
    case ReopenCheck => CheckCache
    case Reopening => if IsLiveSession(s.f, s.net) then OpenOk else OpenFails(0)
    case NeedDial => CheckCache
    case Dialing => DialOk
    case HasSession(id) => if id !in s.net.deadSessions then OpenOk else OpenFails(0)
    case Abandoning(_, _) => Abandon
    case HasChannel(_, _) => Install
    case Connected => Topology
    case Declaring => if BothLive(s) then TopologyOk else TopologyFails(0)
  }

  predicate BothLive(s: State) {
    IsLiveSession(s.f, s.net) && IsLiveChannel(s.f, s.net)
  }

  lemma StepDescends(s: State, a: Action, delay: nat)
    requires InsideMutex(a) && Enabled(s, a)
    ensures PcRank(Apply(s, a, delay).pc) < PcRank(s.pc)
  {
  }

  lemma HolderCanMove(s: State)
    requires Channels(s) && FlagIsTrue(s) && !s.pc.Free?
    ensures InsideMutex(NextStep(s)) && Enabled(s, NextStep(s))
  {
  }

  /** The holder of the mutex never finds a missing field, and leaves after at most nine steps. */
  lemma HolderMoves(s: State, delay: nat)
    requires Inv(s, delay) && !s.pc.Free?
    ensures InsideMutex(NextStep(s)) && Enabled(s, NextStep(s))
    ensures forall a | InsideMutex(a) && Enabled(s, a) :: PcRank(Apply(s, a, delay).pc) < PcRank(s.pc) <= 9
  {
    HolderCanMove(s);
    forall a | InsideMutex(a) && Enabled(s, a)
      ensures PcRank(Apply(s, a, delay).pc) < PcRank(s.pc)
    {
      StepDescends(s, a, delay);
    }
  }

  // ---- a call, among everybody's steps ----

  /** The mutex is held from s on through all the steps. */
  predicate Holding(s: State, steps: seq<Action>, delay: nat)
    decreases |steps|
  {
    !s.pc.Free? && (steps == [] || (Enabled(s, steps[0]) && Holding(Apply(s, steps[0], delay), steps[1..], delay)))
  }

  /** The mutex is held from s on, until the last step gives it back. */
  predicate InCall(s: State, steps: seq<Action>, delay: nat)
    decreases |steps|
  {
    && !s.pc.Free? && steps != [] && Enabled(s, steps[0])
    && var t := Apply(s, steps[0], delay);
       if t.pc.Free? then steps[1..] == [] else InCall(t, steps[1..], delay)
  }

  lemma {:induction false} InCallIsRun(s: State, steps: seq<Action>, delay: nat)
    requires InCall(s, steps, delay)
    ensures Run(s, steps, delay) && Exec(s, steps, delay).pc.Free?
    decreases |steps|
  {
    var t := Apply(s, steps[0], delay);
    if !t.pc.Free? {
      InCallIsRun(t, steps[1..], delay);
    }
  }

  /** One more step keeps the mutex or ends the call. */
  lemma {:induction false} HoldingExtends(s: State, steps: seq<Action>, a: Action, delay: nat)
    requires Holding(s, steps, delay) && Run(s, steps, delay) && Enabled(Exec(s, steps, delay), a)
    ensures if Apply(Exec(s, steps, delay), a, delay).pc.Free? then InCall(s, steps + [a], delay) else Holding(s, steps + [a], delay)
    decreases |steps|
  {
    if steps == [] {
      assert [a][1..] == [];
    } else {
      HoldingExtends(Apply(s, steps[0], delay), steps[1..], a, delay);
      assert (steps + [a])[1..] == steps[1..] + [a];
    }
  }

  predicate Returned(s: State, c: Cid) {
    |s.net.events| > 0 && s.net.events[|s.net.events| - 1] == Replied(Channel(c))
  }

  /** The call returns channel c. */
  predicate CallReturns(s: State, steps: seq<Action>, delay: nat, c: Cid) {
    InCall(s, steps, delay) && Run(s, steps, delay) && Returned(Exec(s, steps, delay), c)
  }

  /** The rest of a call that has not ended with its first step. */
  lemma CallGoesOn(s: State, steps: seq<Action>, delay: nat, c: Cid)
    requires Inv(s, delay) && CallReturns(s, steps, delay, c)
    ensures var t := Apply(s, steps[0], delay);
            if t.pc.Free? then Returned(t, c) else Inv(t, delay) && CallReturns(t, steps[1..], delay, c)
  {
    StepInv(s, steps[0], delay);
  }

  // ---- the returned channel was alive ----

  /** Channel c is open, on a live session. */
  predicate Alive(net: Net, c: Cid) {
    c < |net.openedOn| && c !in net.deadChannels && net.openedOn[c] !in net.deadSessions
  }

  /** At some moment of the run the channel is alive. */
  ghost predicate SometimeAlive(s: State, steps: seq<Action>, delay: nat, c: Cid) {
    exists i {:trigger Run(s, steps[..i], delay)} ::
      0 <= i <= |steps| && Run(s, steps[..i], delay) && Alive(Exec(s, steps[..i], delay).net, c)
  }

  lemma AliveNow(s: State, steps: seq<Action>, delay: nat, c: Cid)
    requires Alive(s.net, c)
    ensures SometimeAlive(s, steps, delay, c)
  {
    assert steps[..0] == [];
    assert Run(s, steps[..0], delay);
  }

  lemma AliveLater(s: State, steps: seq<Action>, delay: nat, c: Cid)
    requires steps != [] && Enabled(s, steps[0]) && SometimeAlive(Apply(s, steps[0], delay), steps[1..], delay, c)
    ensures SometimeAlive(s, steps, delay, c)
  {
    var t, rest := Apply(s, steps[0], delay), steps[1..];
    var i :| 0 <= i <= |rest| && Run(t, rest[..i], delay) && Alive(Exec(t, rest[..i], delay).net, c);
    assert steps[..i + 1][0] == steps[0] && steps[..i + 1][1..] == rest[..i];
    assert Run(s, steps[..i + 1], delay);
  }

  /** The channel a call is going to return, once it has one. */
  predicate Offers(s: State, c: Cid) {
    (s.pc.HasChannel? && s.pc.c == c) || ((s.pc.Connected? || s.pc.Declaring?) && s.f.channel == Some(c))
  }

  lemma StepOffers(s: State, a: Action, delay: nat, c: Cid)
    requires Offers(s, c) && Enabled(s, a)
    ensures var t := Apply(s, a, delay); if t.pc.Free? then forall d | Returned(t, d) :: d == c else Offers(t, c)
  {
  }

  lemma {:induction false} CallOffers(s: State, steps: seq<Action>, delay: nat, c: Cid, d: Cid)
    requires Inv(s, delay) && CallReturns(s, steps, delay, d) && Offers(s, c)
    ensures d == c
    decreases |steps|
  {
    StepOffers(s, steps[0], delay, c);
    CallGoesOn(s, steps, delay, d);
    if !Apply(s, steps[0], delay).pc.Free? {
      CallOffers(Apply(s, steps[0], delay), steps[1..], delay, c, d);
    }
  }

  predicate Reconnects(pc: Pc) {
    pc.NeedReopen? || pc.ReopenCheck? || pc.Reopening? || pc.NeedDial? || pc.Dialing? || pc.HasSession? || pc.Abandoning?
  }

  /** A call that reconnects goes on reconnecting, ends without a channel, or opens a channel that is alive. */
  lemma StepReconnects(s: State, a: Action, delay: nat)
    requires Inv(s, delay) && Reconnects(s.pc) && Enabled(s, a)
    ensures var t := Apply(s, a, delay);
            if a.OpenOk? then Offers(t, |s.net.openedOn|) && Alive(t.net, |s.net.openedOn|)
            else if t.pc.Free? then forall c :: !Returned(t, c)
            else Reconnects(t.pc)
  {
  }

  lemma {:induction false} ReconnectedWasAlive(s: State, steps: seq<Action>, delay: nat, c: Cid)
    requires Inv(s, delay) && CallReturns(s, steps, delay, c) && Reconnects(s.pc)
    ensures SometimeAlive(s, steps, delay, c)
    decreases |steps|
  {
    var a, t := steps[0], Apply(s, steps[0], delay);
    StepReconnects(s, a, delay);
    CallGoesOn(s, steps, delay, c);
    if a.OpenOk? {
      CallOffers(t, steps[1..], delay, |s.net.openedOn|, c);
      AliveNow(t, steps[1..], delay, c);
    } else {
      ReconnectedWasAlive(t, steps[1..], delay, c);
    }
    AliveLater(s, steps, delay, c);
  }

  /** Past the session's check: the channel found open then was open now, or the call reconnects. */
  lemma {:induction false} CheckedWasOpen(s: State, steps: seq<Action>, delay: nat, c: Cid)
    requires Inv(s, delay) && CallReturns(s, steps, delay, c) && s.pc.SessionLive?
    ensures (s.f.channel == Some(c) && c !in s.net.deadChannels) || SometimeAlive(s, steps, delay, c)
    decreases |steps|
  {
    var a, t := steps[0], Apply(s, steps[0], delay);
    CallGoesOn(s, steps, delay, c);
    if t.pc.Connected? {
      CallOffers(t, steps[1..], delay, s.f.channel.value, c);
    } else {
      if t.pc.NeedReopen? {
        ReconnectedWasAlive(t, steps[1..], delay, c);
      } else {
        CheckedWasOpen(t, steps[1..], delay, c);
      }
      if SometimeAlive(t, steps[1..], delay, c) {
        AliveLater(s, steps, delay, c);
      }
    }
  }

  /**
   * Whatever the broker and everybody else does meanwhile: the channel a call returns was alive at
   * some moment of that call. A dead channel found installed is never served.
   */
  lemma {:induction false} ReturnedChannelWasAlive(s: State, steps: seq<Action>, delay: nat, c: Cid)
    requires Inv(s, delay) && s.pc.Entered? && CallReturns(s, steps, delay, c)
    ensures SometimeAlive(s, steps, delay, c)
    decreases |steps|
  {
    var t := Apply(s, steps[0], delay);
    CallGoesOn(s, steps, delay, c);
    if t.pc.Entered? {
      ReturnedChannelWasAlive(t, steps[1..], delay, c);
    } else if t.pc.NeedDial? {
      ReconnectedWasAlive(t, steps[1..], delay, c);
    } else {
      CheckedWasOpen(t, steps[1..], delay, c);
      if t.f.channel == Some(c) && c !in t.net.deadChannels {
        AliveNow(t, steps[1..], delay, c);
      }
    }
    AliveLater(s, steps, delay, c);
  }

  /** Installed handles that are both alive stay installed and alive, unless the broker kills one or Close takes them. */
  lemma LiveHandlesAreKept(s: State, a: Action, delay: nat)
    requires Inv(s, delay) && Enabled(s, a) && BothLive(s)
    requires !a.Steal? && a != KillSession(s.f.session.value) && a != KillChannel(s.f.channel.value)
    ensures var t := Apply(s, a, delay); t.f.session == s.f.session && t.f.channel == s.f.channel && BothLive(t)
  {
    if a.CloserClosesChannel? {
      assert HoldsChannel(s, a.k, s.closers[a.k].channel.value);
    } else if a.CloserClosesSession? && s.closers[a.k].session.Some? {
      assert HeldBy(s, a.k, s.closers[a.k].session.value);
    }
  }

  // ---- failures are not sticky ----

  /** The broker refuses nothing and kills nothing. */
  predicate Cooperative(a: Action) {
    !a.KillSession? && !a.KillChannel? && !a.DialFails? && !a.DialNil? && !a.OpenFails? && !a.OpenNil? && !a.TopologyFails?
  }

  /** Nothing a call still needs has died, and the cache does not stand in its way. */
  predicate Promising(s: State, delay: nat) {
    match s.pc
    case Free => false
    case Entered => BothLive(s) || !Cached(s.f, s.net.now, delay)
    case SessionLive => IsLiveSession(s.f, s.net) && (IsLiveChannel(s.f, s.net) || !Cached(s.f, s.net.now, delay))
    case NeedReopen => IsLiveSession(s.f, s.net) && !Cached(s.f, s.net.now, delay)
    case ReopenCheck => IsLiveSession(s.f, s.net) && !Cached(s.f, s.net.now, delay)
    case Reopening => IsLiveSession(s.f, s.net)
    case NeedDial => !Cached(s.f, s.net.now, delay)
    case Dialing => true
    case HasSession(id) => id !in s.net.deadSessions
    case Abandoning(_, _) => false
    case HasChannel(id, c) => id !in s.net.deadSessions && c !in s.net.deadChannels
    case Connected => BothLive(s)
    case Declaring => BothLive(s)
  }

  /** The installed channel was returned, declared, and is alive. */
  predicate Succeeded(s: State) {
    s.f.channel.Some? && Returned(s, s.f.channel.value) && s.f.topologyDeclared && BothLive(s)
  }

  lemma PromiseInside(s: State, a: Action, delay: nat)
    requires Ownership(s) && Channels(s) && Known(s) && Promising(s, delay) && Enabled(s, a) && InsideMutex(a) && Cooperative(a)
    ensures var t := Apply(s, a, delay); if t.pc.Free? then Succeeded(t) else Promising(t, delay)
  {
  }

  lemma PromiseOutside(s: State, a: Action, delay: nat)
    requires Ownership(s) && Known(s) && Promising(s, delay) && Enabled(s, a) && !InsideMutex(a) && Cooperative(a)
    ensures Promising(Apply(s, a, delay), delay)
  {
    if a.CloserClosesChannel? {
      assert HoldsChannel(s, a.k, s.closers[a.k].channel.value);
    } else if a.CloserClosesSession? && s.closers[a.k].session.Some? {
      assert HeldBy(s, a.k, s.closers[a.k].session.value);
    }
  }

  lemma StepPromising(s: State, a: Action, delay: nat)
    requires Inv(s, delay) && Promising(s, delay) && Enabled(s, a) && Cooperative(a)
    ensures var t := Apply(s, a, delay); if t.pc.Free? then Succeeded(t) else Promising(t, delay)
  {
    if InsideMutex(a) {
      PromiseInside(s, a, delay);
    } else {
      PromiseOutside(s, a, delay);
    }
  }

  /**
   * Every call that starts with its session and channel alive, or past the cache window, returns
   * the installed channel, declared and alive, if the broker cooperates during it: whatever closers
   * do meanwhile and however long it takes.
   */
  lemma {:induction false} CooperativeCallSucceeds(s: State, steps: seq<Action>, delay: nat)
    requires Inv(s, delay) && Promising(s, delay) && InCall(s, steps, delay) && Run(s, steps, delay)
    requires forall i | 0 <= i < |steps| :: Cooperative(steps[i])
    ensures Succeeded(Exec(s, steps, delay))
    decreases |steps|
  {
    var t := Apply(s, steps[0], delay);
    StepPromising(s, steps[0], delay);
    StepInv(s, steps[0], delay);
    if !t.pc.Free? {
      CooperativeCallSucceeds(t, steps[1..], delay);
    }
  }

  /**
   * The negative cache in numbers: the step that consults it answers without dialling exactly while
   * the recorded failure is less than `delay` old, and then with the recorded cause.
   */
  lemma SuppressedExactly(s: State, delay: nat)
    requires Enabled(s, CheckCache)
    ensures var t := Apply(s, CheckCache, delay);
            && (t.pc.Free? <==> s.f.lastFail.Some? && s.net.now - s.f.lastFail.value.at < delay)
            && (t.pc.Free? ==> t.net.events == s.net.events + [Replied(Suppressed(s.f.lastFail.value.cause))])
            && (!t.pc.Free? ==> t.pc == if s.pc.NeedDial? then Dialing else Reopening)
  {
  }

  /** The history of a call that is refused for `cause`. */
  predicate RefusedWith(s: State, t: State, cause: Cause) {
    && t.pc.Free? && t.f.lastFail == Some(Failure(s.net.now, cause))
    && t.net.events == s.net.events + [Recorded(Failure(s.net.now, cause)), Replied(Failed(cause))]
  }

  /**
   * Every refusal is recorded and answered with its own cause; a session that gave no channel is
   * first closed.
   */
  lemma RefusalsAreReported(s: State, a: Action, delay: nat)
    requires Enabled(s, a)
    ensures var t := Apply(s, a, delay);
            && (a.DialFails? ==> RefusedWith(s, t, DialError(a.e)))
            && (a.DialNil? ==> RefusedWith(s, t, NilSession))
            && (a.OpenFails? && s.pc.Reopening? ==> RefusedWith(s, t, OpenError(a.e)))
            && (a.OpenNil? && s.pc.Reopening? ==> RefusedWith(s, t, NilChannel))
            && (a.OpenFails? && s.pc.HasSession? ==> t == s.(pc := Abandoning(s.pc.s, OpenError(a.e))))
            && (a.OpenNil? && s.pc.HasSession? ==> t == s.(pc := Abandoning(s.pc.s, NilChannel)))
            && (a.Abandon? ==> RefusedWith(s, t, s.pc.cause) && t.net.closeCalls == s.net.closeCalls + [s.pc.s])
            && (a.TopologyFails? ==> t.pc.Free? && t.f == s.f && t.net.events == s.net.events + [Replied(TopologyFailed(a.e))])
  {
    if a.DialFails? || a.DialNil? || a.OpenFails? || a.OpenNil? || a.Abandon? {
      TwoEvents(s.net.events);
    }
  }

  lemma TwoEvents(es: seq<Event>)
    ensures forall d: Event, e: Event :: es + [d] + [e] == es + [d, e]
  {
  }

  /**
   * A call that starts when no failure is recorded, or one at least `delay` old, or with everything
   * alive, returns the installed channel, declared and alive, if the broker cooperates during it.
   */
  lemma CallPastTheWindowSucceeds(s: State, steps: seq<Action>, delay: nat)
    requires Inv(s, delay) && s.pc.Entered? && InCall(s, steps, delay) && Run(s, steps, delay)
    requires BothLive(s) || s.f.lastFail.None? || s.net.now - s.f.lastFail.value.at >= delay
    requires forall i | 0 <= i < |steps| :: Cooperative(steps[i])
    ensures Succeeded(Exec(s, steps, delay))
  {
    CooperativeCallSucceeds(s, steps, delay);
  }

  lemma {:induction false} InsideTakesNoTime(s: State, steps: seq<Action>, delay: nat)
    requires Run(s, steps, delay) && forall i | 0 <= i < |steps| :: InsideMutex(steps[i])
    ensures Exec(s, steps, delay).net.now == s.net.now
    decreases |steps|
  {
    if steps != [] {
      InsideTakesNoTime(Apply(s, steps[0], delay), steps[1..], delay);
    }
  }

  /** Every call can be finished, by a broker that does what it still can. */
  lemma {:induction false} Finishes(s: State, delay: nat) returns (steps: seq<Action>)
    requires Inv(s, delay) && !s.pc.Free?
    ensures InCall(s, steps, delay) && Run(s, steps, delay)
    ensures forall i | 0 <= i < |steps| :: InsideMutex(steps[i])
    ensures Promising(s, delay) ==> forall i | 0 <= i < |steps| :: Cooperative(steps[i])
    decreases PcRank(s.pc)
  {
    var a := NextStep(s);
    HolderMoves(s, delay);
    StepInv(s, a, delay);
    var t := Apply(s, a, delay);
    if Promising(s, delay) {
      StepPromising(s, a, delay);
    }
    if t.pc.Free? {
      steps := [a];
      assert steps[1..] == [];
    } else {
      var rest := Finishes(t, delay);
      steps := [a] + rest;
      assert steps[1..] == rest;
    }
  }

  predicate NoKills(steps: seq<Action>) {
    forall i | 0 <= i < |steps| :: !steps[i].KillSession? && !steps[i].KillChannel?
  }

  /**
   * Failures are not sticky: from every reachable state, whatever has died, the machine can go on
   * to a call that returns the installed channel, declared and alive, with the broker killing
   * nothing more and without waiting longer than the cache window.
   */
  lemma Recovers(s: State, delay: nat) returns (steps: seq<Action>)
    requires Inv(s, delay)
    ensures Run(s, steps, delay) && Succeeded(Exec(s, steps, delay)) && NoKills(steps)
    ensures Exec(s, steps, delay).net.now <= s.net.now + delay
  {
    if s.pc.Free? {
      steps := RecoversWhenFree(s, delay);
    } else {
      var first := Finishes(s, delay);
      InCallIsRun(s, first, delay);
      steps := RecoversAfter(s, first, delay);
    }
  }

  lemma RecoversAfter(s: State, first: seq<Action>, delay: nat) returns (steps: seq<Action>)
    requires Inv(s, delay) && Run(s, first, delay) && Exec(s, first, delay).pc.Free?
    requires forall i | 0 <= i < |first| :: InsideMutex(first[i])
    ensures Run(s, steps, delay) && Succeeded(Exec(s, steps, delay)) && NoKills(steps)
    ensures Exec(s, steps, delay).net.now <= s.net.now + delay
  {
    InsideTakesNoTime(s, first, delay);
    RunInv(s, first, delay);
    var second := RecoversWhenFree(Exec(s, first, delay), delay);
    RunConcat(s, first, second, delay);
    steps := first + second;
  }

  /** Wait out the window, then call. */
  lemma RecoversWhenFree(s: State, delay: nat) returns (steps: seq<Action>)
    requires Inv(s, delay) && s.pc.Free?
    ensures Run(s, steps, delay) && Succeeded(Exec(s, steps, delay)) && NoKills(steps)
    ensures Exec(s, steps, delay).net.now <= s.net.now + delay
  {
    var t := Apply(s, Tick(delay), delay);
    StepInv(s, Tick(delay), delay);
    var u := Apply(t, Enter, delay);
    StepInv(t, Enter, delay);
    var call := Finishes(u, delay);
    CooperativeCallSucceeds(u, call, delay);
    InsideTakesNoTime(u, call, delay);
    steps := [Tick(delay)] + ([Enter] + call);
    assert ([Enter] + call)[1..] == call;
    assert steps[1..] == [Enter] + call;
  }

  // ---- Close and the cache ----

  /**
   * Close clears the negative cache: with a Close between them two failures can be recorded at the
   * same instant, whatever the delay.
   */
  lemma CloseResetsTheWindow(delay: nat, e: nat) returns (steps: seq<Action>)
    ensures Run(Init(), steps, delay)
    ensures var es := Exec(Init(), steps, delay).net.events;
            exists i, j :: 0 <= i < j < |es| && es[i] == es[j] == Recorded(Failure(0, DialError(e)))
  {
    steps := FailedCall([], delay, e);
    steps := Then(Init(), steps, Steal(0), delay);
    steps := FailedCall(steps, delay, e);
    var es := Exec(Init(), steps, delay).net.events;
    assert es[0] == es[3] == Recorded(Failure(0, DialError(e)));
  }

  /** From a free mutex and empty fields, a call whose dial fails. */
  lemma FailedCall(before: seq<Action>, delay: nat, e: nat) returns (steps: seq<Action>)
    requires Run(Init(), before, delay) && Exec(Init(), before, delay).pc.Free? && Exec(Init(), before, delay).f == NO_FIELDS
    ensures Run(Init(), steps, delay)
    ensures var s, failure := Exec(Init(), before, delay), Failure(Exec(Init(), before, delay).net.now, DialError(e));
            Exec(Init(), steps, delay) == s.(f := NO_FIELDS.(lastFail := Some(failure)),
                                             net := s.net.(events := s.net.events + [Recorded(failure), Replied(Failed(DialError(e)))]))
  {
    steps := Then(Init(), before, Enter, delay);
    steps := Then(Init(), steps, CheckSession, delay);
    steps := Then(Init(), steps, CheckCache, delay);
    steps := Then(Init(), steps, DialFails(e), delay);
    var s, failure := Exec(Init(), before, delay), Failure(Exec(Init(), before, delay).net.now, DialError(e));
    assert s.net.events + [Recorded(failure)] + [Replied(Failed(DialError(e)))]
        == s.net.events + [Recorded(failure), Replied(Failed(DialError(e)))];
  }
}
