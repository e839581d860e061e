/**
 * The Connection object (internal/messaging/connection.go) with its fields and methods as the code
 * has them. What the broker answers, and what it breaks while a call is under way, is a parameter.
 * Each method's contract is that its effect is a run of the Lifecycle machine, so everything proved
 * there of every run holds here.
 */
module Connection {
  import opened Calls
  import opened Lifecycle
  import opened Options

  datatype DialOutcome = DialRefused(e: nat) | DialedNil | Dialed
  datatype OpenOutcome = OpenRefused(e: nat) | OpenedNil | Opened
  datatype TopologyOutcome = Refused(e: nat) | Declared

  /** What can happen to the connection while its mutex is held. */
  datatype Disturbance = Pass(d: nat) | LoseSession(id: Sid) | LoseChannel(c: Cid)

  /** When it can happen: before each check and during each round trip. */
  datatype Moment = BeforeSessionCheck | BeforeChannelCheck | BeforeCache | DuringReopen | DuringDial | DuringOpen | BeforeInstall | DuringTopology

  /** The broker during one call of Channel(). */
  datatype Broker = Broker(dial: DialOutcome, open: OpenOutcome, topology: TopologyOutcome, meanwhile: Moment -> seq<Disturbance>)

  /** The error value of an operation on something closed. */
  const CLOSED: nat := 0

  /** A dead session opens no channels. */
  function OpenAnswer(b: Broker, id: Sid, net: Net): OpenOutcome {
    if b.open.Opened? && id in net.deadSessions then OpenRefused(CLOSED) else b.open
  }

  predicate OnlyTime(ds: seq<Disturbance>) {
    forall i | 0 <= i < |ds| :: ds[i].Pass?
  }

  /** Nothing breaks during the call; time may pass. */
  ghost predicate Quiet(b: Broker) {
    forall m: Moment :: OnlyTime(b.meanwhile(m))
  }

  ghost predicate Instant(b: Broker) {
    forall m: Moment :: b.meanwhile(m) == []
  }

  ghost predicate Cooperates(b: Broker) {
    b.dial.Dialed? && b.open.Opened? && b.topology.Declared? && Quiet(b)
  }

  /** What a refusal is answered with: of the dial, when there is one, or of the channel. */
  ghost predicate Explains(b: Broker, redial: bool, err: Option<Reply>) {
    && (redial && b.dial.DialRefused? ==> err == Some(Failed(DialError(b.dial.e))))
    && (redial && b.dial.DialedNil? ==> err == Some(Failed(NilSession)))
    && ((redial ==> b.dial.Dialed?) && b.open.OpenRefused? ==> err == Some(Failed(OpenError(b.open.e))))
    && ((redial ==> b.dial.Dialed?) && b.open.OpenedNil? ==> err == Some(Failed(NilChannel)))
  }

  predicate IsDisturbance(a: Action) { a.Tick? || a.KillSession? || a.KillChannel? }

  /** The steps of a single caller that has the mutex, and what disturbs it. */
  predicate OneCaller(steps: seq<Action>) {
    forall i | 0 <= i < |steps| :: InsideMutex(steps[i]) || IsDisturbance(steps[i])
  }

  /** `path`, one caller's steps since it entered at `from`, leads to `to`. */
  ghost predicate Leads(from: State, path: seq<Action>, to: State, delay: nat) {
    && Inv(from, delay) && OneCaller(path)
    && Run(from, path, delay) && Exec(from, path, delay) == to
    && (if to.pc.Free? then InCall(from, path, delay) else Holding(from, path, delay))
  }

  /** A path, one step longer. */
  lemma Advance(from: State, path: seq<Action>, to: State, a: Action, delay: nat) returns (more: seq<Action>)
    requires Leads(from, path, to, delay) && !to.pc.Free? && Enabled(to, a) && (InsideMutex(a) || IsDisturbance(a))
    ensures Leads(from, more, Apply(to, a, delay), delay)
    ensures Promising(to, delay) && Cooperative(a) ==>
              var t := Apply(to, a, delay); if t.pc.Free? then Succeeded(t) else Promising(t, delay)
  {
    more := Then(from, path, a, delay);
    HoldingExtends(from, path, a, delay);
    if Promising(to, delay) && Cooperative(a) {
      InvOnPath(from, path, to, delay);
      StepPromising(to, a, delay);
    }
  }

  lemma InvOnPath(from: State, path: seq<Action>, to: State, delay: nat)
    requires Leads(from, path, to, delay)
    ensures Inv(to, delay)
  {
    RunInv(from, path, delay);
  }

  class Connection {
    var session: Option<Sid>
    var channel: Option<Cid>
    var topologyDeclared: bool
    var lastDialFail: Option<Failure>
    const reconnectDelay: nat
    var net: Net

    /** The machine state these fields stand for, with the mutex holder at `pc`. */
    function At(pc: Pc): State
      reads this
    {
      State(Fields(session, channel, topologyDeclared, lastDialFail), pc, map[], net)
    }

    ghost predicate Valid()
      reads this
    {
      Inv(At(Free), reconnectDelay)
    }

    /** `path` leads from where the caller entered to where this object is now. */
    ghost predicate Follows(from: State, path: seq<Action>, pc: Pc)
      reads this
    {
      Leads(from, path, At(pc), reconnectDelay)
    }

    /** With a cooperating broker nothing stands in the way of a call at `pc`. */
    ghost predicate Smooth(pc: Pc)
      reads this
    {
      Promising(At(pc), reconnectDelay)
    }

    constructor (reconnectDelay: nat)
      ensures Valid() && At(Free) == Init() && this.reconnectDelay == reconnectDelay
    {
      session, channel, topologyDeclared, lastDialFail := None, None, false, None;
      this.reconnectDelay := reconnectDelay;
      net := Init().net;
      new;
      InitInv(reconnectDelay);
    }

    method CachedDialError() returns (r: Option<Cause>)
      ensures r.None? <==> lastDialFail.None? || net.now - lastDialFail.value.at >= reconnectDelay
      ensures r.Some? ==> r == Some(lastDialFail.value.cause)
    {
      if lastDialFail.None? || net.now - lastDialFail.value.at >= reconnectDelay {
        return None;
      }
      r := Some(lastDialFail.value.cause);
    }

    /** cacheDialFailure, and the caller's return with the error. */
    method CacheDialFailure(cause: Cause) returns (r: Reply)
      modifies this`lastDialFail, this`net
      ensures r == Failed(cause) && lastDialFail == Some(Failure(old(net.now), cause))
      ensures net == old(net).(events := old(net.events) + [Recorded(lastDialFail.value)] + [Replied(r)])
    {
      lastDialFail := Some(Failure(net.now, cause));
      net := net.(events := net.events + [Recorded(Failure(net.now, cause))]);
      r := Failed(cause);
      Leave(r);
    }

    /** The answer is on its way to the caller. */
    method Leave(r: Reply)
      modifies this`net
      ensures net == old(net).(events := old(net.events) + [Replied(r)])
    {
      net := net.(events := net.events + [Replied(r)]);
    }

    /** What happens meanwhile: time passes, and the broker may lose sessions and channels that exist. */
    method Disturb(ds: seq<Disturbance>, ghost from: State, ghost path: seq<Action>, ghost pc: Pc)
      returns (ghost more: seq<Action>)
      requires Follows(from, path, pc) && !pc.Free?
      modifies this`net
      ensures Follows(from, more, pc)
      ensures OnlyTime(ds) && old(Smooth(pc)) ==> Smooth(pc)
      ensures OnlyTime(ds) ==> net == old(net).(now := net.now)
      ensures ds == [] ==> net == old(net)
      ensures net.dialled == old(net).dialled && net.openedOn == old(net).openedOn
    {
      more := path;
      var i := 0;
      while i < |ds|
        invariant 0 <= i <= |ds| && Follows(from, more, pc)
        invariant OnlyTime(ds) && old(Smooth(pc)) ==> Smooth(pc)
        invariant OnlyTime(ds) ==> net == old(net).(now := net.now)
        invariant ds == [] ==> net == old(net)
        invariant net.dialled == old(net).dialled && net.openedOn == old(net).openedOn
      {
        more := DisturbOnce(ds[i], from, more, pc);
        i := i + 1;
      }
    }

    method DisturbOnce(d: Disturbance, ghost from: State, ghost path: seq<Action>, ghost pc: Pc)
      returns (ghost more: seq<Action>)
      requires Follows(from, path, pc) && !pc.Free?
      modifies this`net
      ensures Follows(from, more, pc)
      ensures d.Pass? && old(Smooth(pc)) ==> Smooth(pc)
      ensures d.Pass? ==> net == old(net).(now := net.now)
      ensures net.dialled == old(net).dialled && net.openedOn == old(net).openedOn
    {
      more := path;
      match d
      case Pass(time) =>
        more := Advance(from, path, At(pc), Tick(time), reconnectDelay);
        net := net.(now := net.now + time);
      case LoseSession(id) =>
        if id < net.dialled {
          more := Advance(from, path, At(pc), KillSession(id), reconnectDelay);
          net := net.(deadSessions := net.deadSessions + {id});
        }
      case LoseChannel(c) =>
        if c < |net.openedOn| {
          more := Advance(from, path, At(pc), KillChannel(c), reconnectDelay);
          net := net.(deadChannels := net.deadChannels + {c});
        }
    }

    /** The last event is the reply the caller gets. */
    ghost predicate Answered(r: Reply)
      reads this
    {
      |net.events| > 0 && net.events[|net.events| - 1] == Replied(r)
    }

    /** Without an error a channel is installed; with one the mutex is free and the caller has it. */
    ghost predicate Reached(from: State, path: seq<Action>, err: Option<Reply>)
      reads this
    {
      if err.None? then Follows(from, path, Connected)
      else
        && Follows(from, path, Free) && Answered(err.value) && (err.value.Suppressed? || err.value.Failed?)
        && (err.value.Failed? ==> lastDialFail == Some(Failure(net.now, err.value.cause)))
    }

    /** The recorded failure is still inside its window. */
    predicate InWindow()
      reads this
    {
      lastDialFail.Some? && net.now - lastDialFail.value.at < reconnectDelay
    }

    /** Nothing was dialled or opened, and the handles are the same. */
    twostate predicate SameHandles()
      reads this
    {
      session == old(session) && channel == old(channel) && net.dialled == old(net).dialled && net.openedOn == old(net).openedOn
    }

    /** The call was answered from the negative cache, and nothing was tried. */
    twostate predicate OnlySuppressed(err: Option<Reply>)
      reads this
    {
      && old(lastDialFail).Some? && err == Some(Suppressed(old(lastDialFail).value.cause))
      && net.dialled == old(net).dialled && net.openedOn == old(net).openedOn
    }

    /** reopenChannelLocked: a new channel on the live session, or the error to return. */
    method ReopenChannelLocked(b: Broker, ghost from: State, ghost path: seq<Action>)
      returns (err: Option<Reply>, ghost more: seq<Action>)
      requires Follows(from, path, NeedReopen) && session.Some?
      modifies this
      ensures Reached(from, more, err)
      ensures Cooperates(b) && old(Smooth(NeedReopen)) ==> err.None? && Smooth(Connected)
      ensures Quiet(b) && old(Smooth(NeedReopen)) ==> Explains(b, false, err)
      ensures Instant(b) && old(InWindow()) ==> OnlySuppressed(err)
    {
      more := Advance(from, path, At(NeedReopen), BeginReopen, reconnectDelay);
      topologyDeclared := false;
      more := Disturb(b.meanwhile(BeforeCache), from, more, ReopenCheck);
      err, more := ReopenUnlessCached(b, from, more);
    }

    /** The rest of reopenChannelLocked, from the negative cache on. */
    method ReopenUnlessCached(b: Broker, ghost from: State, ghost path: seq<Action>)
      returns (err: Option<Reply>, ghost more: seq<Action>)
      requires Follows(from, path, ReopenCheck) && session.Some?
      modifies this
      ensures Reached(from, more, err)
      ensures Cooperates(b) && old(Smooth(ReopenCheck)) ==> err.None? && Smooth(Connected)
      ensures Quiet(b) && old(Smooth(ReopenCheck)) ==> Explains(b, false, err)
      ensures Instant(b) && old(InWindow()) ==> OnlySuppressed(err)
    {
      more := path;
      var cached := CachedDialError();
      more := Advance(from, more, At(ReopenCheck), CheckCache, reconnectDelay);
      if cached.Some? {
        Leave(Suppressed(cached.value));
        err := Some(Suppressed(cached.value));
        return;
      }
      more := Disturb(b.meanwhile(DuringReopen), from, more, Reopening);
      err, more := OpenOnSession(b, from, more);
    }

    /** The rest of reopenChannelLocked, past the negative cache: session.Channel() has answered. */
    method OpenOnSession(b: Broker, ghost from: State, ghost path: seq<Action>)
      returns (err: Option<Reply>, ghost more: seq<Action>)
      requires Follows(from, path, Reopening) && session.Some?
      modifies this
      ensures Reached(from, more, err)
      ensures Cooperates(b) && old(Smooth(Reopening)) ==> err.None? && Smooth(Connected)
      ensures Explains(b, false, err)
    {
      match OpenAnswer(b, session.value, net)
      case OpenRefused(e) =>
        more := Advance(from, path, At(Reopening), OpenFails(e), reconnectDelay);
        var r := CacheDialFailure(OpenError(e));
        err := Some(r);
      case OpenedNil =>
        more := Advance(from, path, At(Reopening), OpenNil, reconnectDelay);
        var r := CacheDialFailure(NilChannel);
        err := Some(r);
      case Opened =>
        more := Advance(from, path, At(Reopening), OpenOk, reconnectDelay);
        var ch := |net.openedOn|;
        net := net.(openedOn := net.openedOn + [session.value]);
        if channel.Some? {
          net := net.(deadChannels := net.deadChannels + {channel.value});
        }
        channel, lastDialFail := Some(ch), None;
        err := None;
    }

    /** session.Close(). */
    method CloseSessionHandle(id: Sid)
      modifies this`net
      ensures net == CloseSession(old(net), id)
    {
      net := net.(closeCalls := net.closeCalls + [id], deadSessions := net.deadSessions + {id});
    }

    /** The dial path of connectLocked, past the negative cache. */
    method DialLocked(b: Broker, ghost from: State, ghost path: seq<Action>)
      returns (err: Option<Reply>, ghost more: seq<Action>)
      requires Follows(from, path, Dialing)
      modifies this
      ensures Reached(from, more, err)
      ensures Cooperates(b) && old(Smooth(Dialing)) ==> err.None? && Smooth(Connected)
      ensures Explains(b, true, err)
    {
      more := Disturb(b.meanwhile(DuringDial), from, path, Dialing);
      match b.dial
      case DialRefused(e) =>
        more := Advance(from, more, At(Dialing), DialFails(e), reconnectDelay);
        var r := CacheDialFailure(DialError(e));
        err := Some(r);
      case DialedNil =>
        more := Advance(from, more, At(Dialing), DialNil, reconnectDelay);
        var r := CacheDialFailure(NilSession);
        err := Some(r);
      case Dialed =>
        err, more := SessionDialled(b, from, more);
    }

    /** The dial brought a session: a channel is asked for. */
    method SessionDialled(b: Broker, ghost from: State, ghost path: seq<Action>)
      returns (err: Option<Reply>, ghost more: seq<Action>)
      requires Follows(from, path, Dialing)
      modifies this
      ensures Reached(from, more, err)
      ensures Cooperates(b) ==> err.None? && Smooth(Connected)
      ensures Explains(b, false, err)
    {
      more := Advance(from, path, At(Dialing), DialOk, reconnectDelay);
      var id := net.dialled;
      net := net.(dialled := net.dialled + 1);
      more := Disturb(b.meanwhile(DuringOpen), from, more, HasSession(id));
      err, more := OpenLocked(id, b, from, more);
    }

    /** No channel on the new session: it is closed again, and the failure recorded. */
    method AbandonLocked(id: Sid, cause: Cause, ghost from: State, ghost path: seq<Action>)
      returns (err: Option<Reply>, ghost more: seq<Action>)
      requires Follows(from, path, Abandoning(id, cause))
      modifies this
      ensures err == Some(Failed(cause)) && Reached(from, more, err)
    {
      more := Advance(from, path, At(Abandoning(id, cause)), Abandon, reconnectDelay);
      CloseSessionHandle(id);
      var r := CacheDialFailure(cause);
      err := Some(r);
    }

    /** The rest of the dial path: session.Channel() on the new session has answered. */
    method OpenLocked(id: Sid, b: Broker, ghost from: State, ghost path: seq<Action>)
      returns (err: Option<Reply>, ghost more: seq<Action>)
      requires Follows(from, path, HasSession(id))
      modifies this
      ensures Reached(from, more, err)
      ensures Cooperates(b) && old(Smooth(HasSession(id))) ==> err.None? && Smooth(Connected)
      ensures Explains(b, false, err)
    {
      match OpenAnswer(b, id, net)
      case OpenRefused(e) =>
        more := Advance(from, path, At(HasSession(id)), OpenFails(e), reconnectDelay);
        err, more := AbandonLocked(id, OpenError(e), from, more);
      case OpenedNil =>
        more := Advance(from, path, At(HasSession(id)), OpenNil, reconnectDelay);
        err, more := AbandonLocked(id, NilChannel, from, more);
      case Opened =>
        more := Advance(from, path, At(HasSession(id)), OpenOk, reconnectDelay);
        var ch := |net.openedOn|;
        net := net.(openedOn := net.openedOn + [id]);
        more := Disturb(b.meanwhile(BeforeInstall), from, more, HasChannel(id, ch));
        more := InstallLocked(id, ch, from, more);
        err := None;
    }

    /** The end of the dial path: both handles are installed, and the dead session they replace is released. */
    method InstallLocked(id: Sid, ch: Cid, ghost from: State, ghost path: seq<Action>)
      returns (ghost more: seq<Action>)
      requires Follows(from, path, HasChannel(id, ch))
      modifies this
      ensures Follows(from, more, Connected)
      ensures old(Smooth(HasChannel(id, ch))) ==> Smooth(Connected)
    {
      more := Advance(from, path, At(HasChannel(id, ch)), Install, reconnectDelay);
      if session.Some? {
        CloseSessionHandle(session.value);
      }
      session, channel := Some(id), Some(ch);
      topologyDeclared := false;
      lastDialFail := None;
    }

    /** connectLocked: a usable channel is installed, or the error to return. */
    method ConnectLocked(b: Broker, ghost from: State, ghost path: seq<Action>)
      returns (err: Option<Reply>, ghost more: seq<Action>)
      requires Follows(from, path, Entered)
      modifies this
      ensures Reached(from, more, err)
      ensures Cooperates(b) && old(Smooth(Entered)) ==> err.None? && Smooth(Connected)
      ensures Quiet(b) && old(Smooth(Entered) && !BothLive(At(Free))) ==> Explains(b, old(!IsLiveSession(At(Free).f, net)), err)
      ensures Instant(b) && old(InWindow() && !BothLive(At(Free))) ==> OnlySuppressed(err)
      ensures Quiet(b) && old(BothLive(At(Free))) ==> err.None? && SameHandles()
    {
      more := Disturb(b.meanwhile(BeforeSessionCheck), from, path, Entered);
      more := Advance(from, more, At(Entered), CheckSession, reconnectDelay);
      if session.Some? && session.value !in net.deadSessions {
        err, more := KeepSessionLocked(b, from, more);
        return;
      }
      err, more := RedialLocked(b, from, more);
    }

    /** The rest of connectLocked when the session was alive. */
    method KeepSessionLocked(b: Broker, ghost from: State, ghost path: seq<Action>)
      returns (err: Option<Reply>, ghost more: seq<Action>)
      requires Follows(from, path, SessionLive) && session.Some?
      modifies this
      ensures Reached(from, more, err)
      ensures Cooperates(b) && old(Smooth(SessionLive)) ==> err.None? && Smooth(Connected)
      ensures Quiet(b) && old(Smooth(SessionLive) && !IsLiveChannel(At(Free).f, net)) ==> Explains(b, false, err)
      ensures Instant(b) && old(InWindow() && !IsLiveChannel(At(Free).f, net)) ==> OnlySuppressed(err)
      ensures Quiet(b) && old(BothLive(At(Free))) ==> err.None? && SameHandles()
    {
      more := Disturb(b.meanwhile(BeforeChannelCheck), from, path, SessionLive);
      more := Advance(from, more, At(SessionLive), CheckChannel, reconnectDelay);
      if channel.Some? && channel.value !in net.deadChannels {
        err := None;
        return;
      }
      err, more := ReopenChannelLocked(b, from, more);
    }

    /** The rest of connectLocked when there is no live session. */
    method RedialLocked(b: Broker, ghost from: State, ghost path: seq<Action>)
      returns (err: Option<Reply>, ghost more: seq<Action>)
      requires Follows(from, path, NeedDial)
      modifies this
      ensures Reached(from, more, err)
      ensures Cooperates(b) && old(Smooth(NeedDial)) ==> err.None? && Smooth(Connected)
      ensures Quiet(b) && old(Smooth(NeedDial)) ==> Explains(b, true, err)
      ensures Instant(b) && old(InWindow()) ==> OnlySuppressed(err)
    {
      more := Disturb(b.meanwhile(BeforeCache), from, path, NeedDial);
      var cached := CachedDialError();
      more := Advance(from, more, At(NeedDial), CheckCache, reconnectDelay);
      if cached.Some? {
        Leave(Suppressed(cached.value));
        err := Some(Suppressed(cached.value));
        return;
      }
      err, more := DialLocked(b, from, more);
    }

    /**
     * Channel: a call of the machine, ending with this reply. A returned channel is the installed
     * one, had the topology declared on it, and was alive on a live session at some moment of the
     * call, whatever the broker broke meanwhile. If it cooperates, and the handles are alive or the
     * cache window has passed, the call returns a channel that is alive.
     */
    method Channel(b: Broker) returns (r: Reply, ghost call: seq<Action>)
      requires Valid()
      modifies this
      ensures Valid() && Answered(r)
      ensures OneCaller(call) && InCall(old(At(Entered)), call, reconnectDelay)
      ensures Run(old(At(Entered)), call, reconnectDelay) && Exec(old(At(Entered)), call, reconnectDelay) == At(Free)
      ensures r.Channel? ==> channel == Some(r.ch) && topologyDeclared && r.ch in net.declared
      ensures r.Channel? ==> SometimeAlive(old(At(Entered)), call, reconnectDelay, r.ch)
      ensures Cooperates(b)
              && old(BothLive(At(Free)) || lastDialFail.None? || net.now - lastDialFail.value.at >= reconnectDelay) ==>
                r.Channel? && BothLive(At(Free))
      ensures Instant(b)
              && old(!BothLive(At(Free)) && lastDialFail.Some? && net.now - lastDialFail.value.at < reconnectDelay) ==>
                && r == Suppressed(old(lastDialFail).value.cause)
                && net.dialled == old(net.dialled) && net.openedOn == old(net.openedOn)
      ensures r.Failed? ==> lastDialFail == Some(Failure(net.now, r.cause))
      ensures Quiet(b)
              && old(!BothLive(At(Free)) && (lastDialFail.None? || net.now - lastDialFail.value.at >= reconnectDelay)) ==>
                var redial := old(!IsLiveSession(At(Free).f, net));
                && (redial && b.dial.DialRefused? ==> r == Failed(DialError(b.dial.e)))
                && (redial && b.dial.DialedNil? ==> r == Failed(NilSession))
                && ((redial ==> b.dial.Dialed?) && b.open.OpenRefused? ==> r == Failed(OpenError(b.open.e)))
                && ((redial ==> b.dial.Dialed?) && b.open.OpenedNil? ==> r == Failed(NilChannel))
      ensures Quiet(b) && old(BothLive(At(Free))) ==>
                session == old(session) && channel == old(channel) && net.dialled == old(net.dialled) && net.openedOn == old(net.openedOn)
    {
      ghost var from := At(Entered);
      StepInv(At(Free), Enter, reconnectDelay);
      r, call := ChannelLocked(b, from);
      InvOnPath(from, call, At(Free), reconnectDelay);
      if r.Channel? {
        ReturnedChannelWasAlive(from, call, reconnectDelay, r.ch);
      }
    }

    function Error(r: Reply): Option<Reply> {
      if r.Suppressed? || r.Failed? then Some(r) else None
    }

    /** What Channel does with the mutex held. */
    method ChannelLocked(b: Broker, ghost from: State) returns (r: Reply, ghost call: seq<Action>)
      requires Follows(from, [], Entered)
      modifies this
      ensures Follows(from, call, Free) && Answered(r)
      ensures r.Channel? ==> channel == Some(r.ch) && topologyDeclared
      ensures r.Failed? ==> lastDialFail == Some(Failure(net.now, r.cause))
      ensures Cooperates(b) && old(Smooth(Entered)) ==> r.Channel? && BothLive(At(Free))
      ensures Quiet(b) && old(Smooth(Entered) && !BothLive(At(Free))) ==>
                Explains(b, old(!IsLiveSession(At(Free).f, net)), Error(r))
      ensures Instant(b) && old(InWindow() && !BothLive(At(Free))) ==> OnlySuppressed(Error(r))
      ensures Quiet(b) && old(BothLive(At(Free))) ==> SameHandles()
    {
      var err;
      err, call := ConnectLocked(b, from, []);
      if err.Some? {
        r := err.value;
        return;
      }
      InvOnPath(from, call, At(Connected), reconnectDelay);
      r, call := DeclareLocked(b, from, call);
    }

    /** The topology step of Channel, with a channel installed. */
    method DeclareLocked(b: Broker, ghost from: State, ghost path: seq<Action>)
      returns (r: Reply, ghost more: seq<Action>)
      requires Follows(from, path, Connected) && channel.Some?
      modifies this
      ensures Follows(from, more, Free) && Answered(r)
      ensures r.Channel? ==> channel == Some(r.ch) && topologyDeclared
      ensures r.Channel? || r.TopologyFailed?
      ensures Cooperates(b) && old(Smooth(Connected)) ==> r.Channel? && BothLive(At(Free))
      ensures SameHandles()
    {
      more := Advance(from, path, At(Connected), Topology, reconnectDelay);
      if !topologyDeclared {
        more := Disturb(b.meanwhile(DuringTopology), from, more, Declaring);
        r, more := TopologyAnswered(b, from, more);
        return;
      }
      r := Reply.Channel(channel.value);
      Leave(r);
    }

    /** topology() has answered. */
    method TopologyAnswered(b: Broker, ghost from: State, ghost path: seq<Action>)
      returns (r: Reply, ghost more: seq<Action>)
      requires Follows(from, path, Declaring) && channel.Some?
      modifies this
      ensures Follows(from, more, Free) && Answered(r)
      ensures r.Channel? ==> channel == Some(r.ch) && topologyDeclared
      ensures r.Channel? || r.TopologyFailed?
      ensures Cooperates(b) && old(Smooth(Declaring)) ==> r.Channel? && BothLive(At(Free))
      ensures SameHandles()
    {
      match TopologyAnswer(b)
      case Refused(e) =>
        more := Advance(from, path, At(Declaring), TopologyFails(e), reconnectDelay);
        r := TopologyFailed(e);
        Leave(r);
      case Declared =>
        r, more := MarkDeclared(from, path);
    }

    method MarkDeclared(ghost from: State, ghost path: seq<Action>) returns (r: Reply, ghost more: seq<Action>)
      requires Follows(from, path, Declaring) && BothLive(At(Free))
      modifies this
      ensures Follows(from, more, Free) && Answered(r)
      ensures r == Reply.Channel(old(channel).value) && channel == old(channel) && topologyDeclared && BothLive(At(Free))
      ensures SameHandles()
    {
      more := Advance(from, path, At(Declaring), TopologyOk, reconnectDelay);
      net := net.(declared := net.declared + [channel.value]);
      topologyDeclared := true;
      r := Reply.Channel(channel.value);
      Leave(r);
    }

    /** topology() needs the channel and its session alive. */
    function TopologyAnswer(b: Broker): TopologyOutcome
      reads this
    {
      if b.topology.Declared? && !BothLive(At(Free)) then Refused(CLOSED) else b.topology
    }

    /** Close: the fields are emptied under the mutex, and what they held is closed outside it. */
    method Close() returns (ghost steps: seq<Action>)
      requires Valid()
      modifies this
      ensures Valid() && At(Free).f == NO_FIELDS
      ensures steps != [] && steps[0] == Steal(0)
      ensures Run(old(At(Free)), steps, reconnectDelay) && Exec(old(At(Free)), steps, reconnectDelay) == At(Free)
      ensures old(session).Some? ==> old(session).value in net.closeCalls
      ensures old(channel).Some? ==> old(channel).value in net.deadChannels
    {
      ghost var from := At(Free);
      var s, ch := session, channel;
      session, channel, topologyDeclared := None, None, false;
      lastDialFail := None;
      net := net.(events := net.events + [Reset]);
      steps := Then(from, [], Steal(0), reconnectDelay);
      if s.None? && ch.None? {
        RunInv(from, steps, reconnectDelay);
        return;
      }
      steps := CloseHandles(s, ch, from, steps);
      RunInv(from, steps, reconnectDelay);
    }

    /** The part of Close outside the mutex: the stolen channel first, then the session. */
    method CloseHandles(s: Option<Sid>, ch: Option<Cid>, ghost from: State, ghost path: seq<Action>)
      returns (ghost steps: seq<Action>)
      requires Run(from, path, reconnectDelay)
      requires Exec(from, path, reconnectDelay) == At(Free).(closers := map[0 := Stolen(ch, s)])
      modifies this`net
      ensures path <= steps && Run(from, steps, reconnectDelay) && Exec(from, steps, reconnectDelay) == At(Free)
      ensures s.Some? ==> s.value in net.closeCalls
      ensures ch.Some? ==> ch.value in net.deadChannels
    {
      steps := path;
      if ch.Some? {
        steps := Then(from, steps, CloserClosesChannel(0), reconnectDelay);
        net := net.(deadChannels := net.deadChannels + {ch.value});
        assert map[0 := Stolen(ch, s)][0 := Stolen(None, s)] == map[0 := Stolen(None, s)];
      }
      steps := Then(from, steps, CloserClosesSession(0), reconnectDelay);
      if s.Some? {
        CloseSessionHandle(s.value);
      }
      assert map[0 := Stolen(None, s)] - {0} == map[];
    }
  }
}
