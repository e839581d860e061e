/**
 * The AMQP connection (internal/messaging/connection.go) as a transition system. One caller at a
 * time is inside the mutex and moves through connectLocked statement by statement; any number of
 * Close calls that have stolen the fields are closing them outside the mutex; the broker may kill
 * any session or channel at any step; time passes.
 */
module Lifecycle {
  import opened Options

  type Sid = nat
  type Cid = nat

  /** Root causes; `e` identifies the error value the library returned. */
  datatype Cause = DialError(e: nat) | OpenError(e: nat) | NilSession | NilChannel

  datatype Failure = Failure(at: nat, cause: Cause)

  /** The fields under the mutex. `lastFail` is lastDialFail and lastDialErr together. */
  datatype Fields = Fields(
    session: Option<Sid>,
    channel: Option<Cid>,
    topologyDeclared: bool,
    lastFail: Option<Failure>)

  datatype Reply = Channel(ch: Cid) | Suppressed(cause: Cause) | Failed(cause: Cause) | TopologyFailed(e: nat)

  datatype Event = Recorded(failure: Failure) | Reset | Replied(reply: Reply)

  /** Where the holder of the mutex is. */
  datatype Pc =
    | Free                                // nobody holds the mutex
    | Entered                             // before the session's liveness check
    | SessionLive                         // before the channel's liveness check
    | NeedReopen                          // entering reopenChannelLocked
    | ReopenCheck                         // before the negative cache of the reopen path
    | Reopening                           // calling session.Channel() on the live session
    | NeedDial                            // before the negative cache of the dial path
    | Dialing
    | HasSession(s: Sid)                  // dialled, no channel yet
    | Abandoning(s: Sid, cause: Cause)    // about to close a session without a channel
    | HasChannel(s: Sid, c: Cid)          // about to install both
    | Connected                           // connectLocked returned nil
    | Declaring                           // calling topology()

  /** The broker's side and the history of the run. */
  datatype Net = Net(
    now: nat,
    dialled: nat,              // sessions 0 .. dialled-1 exist
    openedOn: seq<Sid>,        // channel c was opened on session openedOn[c]
    deadSessions: set<Sid>,
    deadChannels: set<Cid>,
    closeCalls: seq<Sid>,      // session.Close() calls, in order
    declared: seq<Cid>,        // channels on which topology() succeeded, in order
    events: seq<Event>)

  /** What a Close call has taken out of the fields. */
  datatype Stolen = Stolen(channel: Option<Cid>, session: Option<Sid>)

  datatype State = State(f: Fields, pc: Pc, closers: map<nat, Stolen>, net: Net)

  datatype Action =
    | Tick(d: nat)
    | KillSession(s: Sid)
    | KillChannel(c: Cid)
    | Enter
    | CheckSession
    | CheckChannel
    | BeginReopen
    | CheckCache
    | DialFails(e: nat)
    | DialNil
    | DialOk
    | OpenFails(e: nat)
    | OpenNil
    | OpenOk
    | Abandon
    | Install
    | Topology
    | TopologyOk
    | TopologyFails(e: nat)
    | Steal(k: nat)
    | CloserClosesChannel(k: nat)
    | CloserClosesSession(k: nat)

  const NO_FIELDS: Fields := Fields(None, None, false, None)

  function Init(): State {
    State(NO_FIELDS, Free, map[], Net(0, 0, [], {}, {}, [], [], []))
  }

  predicate IsLiveSession(f: Fields, net: Net) {
    f.session.Some? && f.session.value !in net.deadSessions
  }

  predicate IsLiveChannel(f: Fields, net: Net) {
    f.channel.Some? && f.channel.value !in net.deadChannels
  }

  /** cachedDialError: the recorded failure is still inside its window. */
  predicate Cached(f: Fields, now: nat, delay: nat) {
    f.lastFail.Some? && now - f.lastFail.value.at < delay
  }

  /**
   * The steps a state allows. The ones that dereference a field also ask for it to be there, so a
   * holder of the mutex that cannot move would be a nil dereference. A channel can only be opened
   * on a live session, and the topology only be declared on a live channel of a live session.
   */
  predicate Enabled(s: State, a: Action) {
    match a
    case Tick(_) => true
    case KillSession(id) => id < s.net.dialled
    case KillChannel(c) => c < |s.net.openedOn|
    case Enter => s.pc.Free?
    case CheckSession => s.pc.Entered?
    case CheckChannel => s.pc.SessionLive?
    case BeginReopen => s.pc.NeedReopen?
    case CheckCache => s.pc.NeedDial? || s.pc.ReopenCheck?
    case DialFails(_) => s.pc.Dialing?
    case DialNil => s.pc.Dialing?
    case DialOk => s.pc.Dialing?
    case OpenFails(_) => s.pc.HasSession? || (s.pc.Reopening? && s.f.session.Some?)
    case OpenNil => s.pc.HasSession? || (s.pc.Reopening? && s.f.session.Some?)
    case OpenOk => (s.pc.HasSession? && s.pc.s !in s.net.deadSessions) || (s.pc.Reopening? && IsLiveSession(s.f, s.net))
    case Abandon => s.pc.Abandoning?
    case Install => s.pc.HasChannel?
    case Topology => s.pc.Connected? && (s.f.topologyDeclared ==> s.f.channel.Some?)
    case TopologyOk => s.pc.Declaring? && IsLiveSession(s.f, s.net) && IsLiveChannel(s.f, s.net)
    case TopologyFails(_) => s.pc.Declaring?
    case Steal(k) => s.pc.Free? && k !in s.closers
    case CloserClosesChannel(k) => k in s.closers && s.closers[k].channel.Some?
    case CloserClosesSession(k) => k in s.closers && s.closers[k].channel.None?
  }

  /** The caller leaves the mutex with an answer. */
  function Return(s: State, r: Reply): State {
    s.(pc := Free, net := s.net.(events := s.net.events + [Replied(r)]))
  }

  /** cacheDialFailure, then return the error. */
  function Fail(s: State, cause: Cause): State {
    var failure := Failure(s.net.now, cause);
    Return(s.(f := s.f.(lastFail := Some(failure)), net := s.net.(events := s.net.events + [Recorded(failure)])),
           Failed(cause))
  }

  function CloseSession(net: Net, id: Sid): Net {
    net.(closeCalls := net.closeCalls + [id], deadSessions := net.deadSessions + {id})
  }

  function CloseChannel(net: Net, c: Option<Cid>): Net {
    if c.Some? then net.(deadChannels := net.deadChannels + {c.value}) else net
  }

  function Apply(s: State, a: Action, delay: nat): State
    requires Enabled(s, a)
  {
    match a
    case Tick(d) => s.(net := s.net.(now := s.net.now + d))
    case KillSession(id) => s.(net := s.net.(deadSessions := s.net.deadSessions + {id}))
    case KillChannel(c) => s.(net := s.net.(deadChannels := s.net.deadChannels + {c}))
    case Enter => s.(pc := Entered)
    case CheckSession => s.(pc := if IsLiveSession(s.f, s.net) then SessionLive else NeedDial)
    case CheckChannel => s.(pc := if IsLiveChannel(s.f, s.net) then Connected else NeedReopen)
    case BeginReopen => s.(pc := ReopenCheck, f := s.f.(topologyDeclared := false))
    case CheckCache =>
      if Cached(s.f, s.net.now, delay) then Return(s, Suppressed(s.f.lastFail.value.cause))
      else s.(pc := if s.pc.NeedDial? then Dialing else Reopening)
    case DialFails(e) => Fail(s, DialError(e))
    case DialNil => Fail(s, NilSession)
    case DialOk => s.(pc := HasSession(s.net.dialled), net := s.net.(dialled := s.net.dialled + 1))
    case OpenFails(e) =>
      if s.pc.HasSession? then s.(pc := Abandoning(s.pc.s, OpenError(e))) else Fail(s, OpenError(e))
    case OpenNil =>
      if s.pc.HasSession? then s.(pc := Abandoning(s.pc.s, NilChannel)) else Fail(s, NilChannel)
    case OpenOk =>
      var c := |s.net.openedOn|;
      if s.pc.HasSession? then
        s.(pc := HasChannel(s.pc.s, c), net := s.net.(openedOn := s.net.openedOn + [s.pc.s]))
      else
        s.(pc := Connected, f := s.f.(channel := Some(c), lastFail := None),
           net := CloseChannel(s.net, s.f.channel).(openedOn := s.net.openedOn + [s.f.session.value]))
    case Abandon =>
      Fail(s.(net := CloseSession(s.net, s.pc.s)), s.pc.cause)
    case Install =>
      s.(pc := Connected, f := Fields(Some(s.pc.s), Some(s.pc.c), false, None),
         net := if s.f.session.Some? then CloseSession(s.net, s.f.session.value) else s.net)
    case Topology =>
      if s.f.topologyDeclared then Return(s, Channel(s.f.channel.value)) else s.(pc := Declaring)
    case TopologyOk =>
      var c := s.f.channel.value;
      Return(s.(f := s.f.(topologyDeclared := true), net := s.net.(declared := s.net.declared + [c])), Channel(c))
    case TopologyFails(e) => Return(s, TopologyFailed(e))
    case Steal(k) =>
      s.(f := NO_FIELDS, net := s.net.(events := s.net.events + [Reset]),
         closers := if s.f.session.None? && s.f.channel.None? then s.closers
                    else s.closers[k := Stolen(s.f.channel, s.f.session)])
    case CloserClosesChannel(k) =>
      s.(net := CloseChannel(s.net, s.closers[k].channel), closers := s.closers[k := s.closers[k].(channel := None)])
    case CloserClosesSession(k) =>
      s.(closers := s.closers - {k},
         net := if s.closers[k].session.Some? then CloseSession(s.net, s.closers[k].session.value) else s.net)
  }

  predicate Run(s: State, steps: seq<Action>, delay: nat)
    decreases |steps|
  {
    steps == [] || (Enabled(s, steps[0]) && Run(Apply(s, steps[0], delay), steps[1..], delay))
  }

  function Exec(s: State, steps: seq<Action>, delay: nat): State
    requires Run(s, steps, delay)
    decreases |steps|
  {
    if steps == [] then s else Exec(Apply(s, steps[0], delay), steps[1..], delay)
  }

  lemma {:induction false} RunConcat(s: State, xs: seq<Action>, ys: seq<Action>, delay: nat)
    requires Run(s, xs, delay) && Run(Exec(s, xs, delay), ys, delay)
    ensures Run(s, xs + ys, delay) && Exec(s, xs + ys, delay) == Exec(Exec(s, xs, delay), ys, delay)
    decreases |xs|
  {
    if xs == [] {
      assert xs + ys == ys;
    } else {
      RunConcat(Apply(s, xs[0], delay), xs[1..], ys, delay);
      assert (xs + ys)[1..] == xs[1..] + ys;
    }
  }

  /** A run and one more step. */
  lemma Then(s: State, steps: seq<Action>, a: Action, delay: nat) returns (more: seq<Action>)
    requires Run(s, steps, delay) && Enabled(Exec(s, steps, delay), a)
    ensures more == steps + [a]
    ensures Run(s, more, delay) && Exec(s, more, delay) == Apply(Exec(s, steps, delay), a, delay)
  {
    more := steps + [a];
    assert [a][1..] == [];
    RunConcat(s, steps, [a], delay);
  }

  // ---- session ownership ----

  /** The session the holder of the mutex is connecting. */
  function Connecting(pc: Pc): Option<Sid> {
    match pc
    case HasSession(id) => Some(id)
    case Abandoning(id, _) => Some(id)
    case HasChannel(id, _) => Some(id)
    case _ => None
  }

  predicate Distinct(xs: seq<nat>) {
    forall i, j | 0 <= i < j < |xs| :: xs[i] != xs[j]
  }

  predicate HeldBy(s: State, k: nat, id: Sid) {
    k in s.closers && s.closers[k].session == Some(id)
  }

  /** Being connected, installed, held by a closer, or closed. */
  ghost predicate Placed(s: State, id: Sid) {
    id in s.net.closeCalls || Connecting(s.pc) == Some(id) || s.f.session == Some(id) || exists k: nat :: HeldBy(s, k, id)
  }

  ghost predicate Ownership(s: State) {
    && Distinct(s.net.closeCalls)
    && (forall id | id in s.net.closeCalls :: id < s.net.dialled && id in s.net.deadSessions)
    && (forall id: nat | id < s.net.dialled :: Placed(s, id))
    && (Connecting(s.pc).Some? ==>
          var id := Connecting(s.pc).value;
          id < s.net.dialled && id !in s.net.closeCalls && s.f.session != Some(id) && forall k: nat :: !HeldBy(s, k, id))
    && (s.f.session.Some? ==>
          var id := s.f.session.value;
          id < s.net.dialled && id !in s.net.closeCalls && forall k: nat :: !HeldBy(s, k, id))
    && (forall k: nat, id: nat | HeldBy(s, k, id) :: id < s.net.dialled && id !in s.net.closeCalls)
    && (forall k: nat, l: nat, id: nat | HeldBy(s, k, id) && HeldBy(s, l, id) :: k == l)
    && (s.pc.NeedDial? || s.pc.Dialing? || Connecting(s.pc).Some? ==> !IsLiveSession(s.f, s.net))
  }

  // ---- channels and topology ----

  ghost predicate Channels(s: State) {
    && (s.f.session.Some? <==> s.f.channel.Some?)
    && (s.f.channel.Some? ==>
          var c := s.f.channel.value;
          c < |s.net.openedOn| && s.net.openedOn[c] == s.f.session.value)
    && (s.pc.HasChannel? ==> s.pc.c < |s.net.openedOn| && s.net.openedOn[s.pc.c] == s.pc.s
                             && s.pc.c !in s.net.declared && s.f.channel != Some(s.pc.c))
    && (s.pc.SessionLive? || s.pc.NeedReopen? || s.pc.ReopenCheck? || s.pc.Reopening? || s.pc.Connected? || s.pc.Declaring? ==>
          s.f.channel.Some?)
    && (s.pc.NeedReopen? || s.pc.ReopenCheck? || s.pc.Reopening? ==> !IsLiveChannel(s.f, s.net))
  }

  predicate HoldsChannel(s: State, k: nat, c: Cid) {
    k in s.closers && s.closers[k].channel == Some(c)
  }

  /** Only what exists can be dead, and a closer's channel is neither installed nor about to be. */
  ghost predicate Known(s: State) {
    && (forall id | id in s.net.deadSessions :: id < s.net.dialled)
    && (forall c | c in s.net.deadChannels :: c < |s.net.openedOn|)
    && (forall k: nat, c: nat | HoldsChannel(s, k, c) ::
          c < |s.net.openedOn| && s.f.channel != Some(c) && !(s.pc.HasChannel? && s.pc.c == c))
  }

  ghost predicate DeclaredOnce(s: State) {
    Distinct(s.net.declared) && forall c | c in s.net.declared :: c < |s.net.openedOn|
  }

  /** topologyDeclared speaks of the installed channel, and is only missing on a declared one that died. */
  ghost predicate FlagIsTrue(s: State) {
    && (s.f.topologyDeclared ==> s.f.channel.Some? && s.f.channel.value in s.net.declared)
    && (!s.f.topologyDeclared && s.f.channel.Some? && s.f.channel.value in s.net.declared ==>
          !IsLiveChannel(s.f, s.net) && !s.pc.Connected? && !s.pc.Declaring?)
    && (s.pc.ReopenCheck? || s.pc.Reopening? || s.pc.Declaring? ==> !s.f.topologyDeclared)
  }

  ghost predicate RepliesDeclared(s: State) {
    forall i | 0 <= i < |s.net.events| && s.net.events[i].Replied? && s.net.events[i].reply.Channel? ::
      s.net.events[i].reply.ch in s.net.declared
  }

  ghost predicate TopologyInv(s: State) {
    DeclaredOnce(s) && FlagIsTrue(s) && RepliesDeclared(s)
  }

  // ---- the negative cache ----

  /** The last failure recorded since the last Close. */
  function LastFailure(es: seq<Event>): Option<Failure> {
    if es == [] then None
    else
      match es[|es| - 1]
      case Recorded(failure) => Some(failure)
      case Reset => None
      case Replied(_) => LastFailure(es[..|es| - 1])
  }

  /** Failures with no Close between them are at least `delay` apart. */
  ghost predicate FailuresSpaced(es: seq<Event>, delay: nat) {
    forall i | 0 <= i < |es| && es[i].Recorded? && LastFailure(es[..i]).Some? ::
      LastFailure(es[..i]).value.at + delay <= es[i].failure.at
  }

  /** A suppressed call was given the last recorded cause. */
  ghost predicate CausesKept(es: seq<Event>) {
    forall i | 0 <= i < |es| && es[i].Replied? && es[i].reply.Suppressed? ::
      LastFailure(es[..i]).Some? && es[i].reply.cause == LastFailure(es[..i]).value.cause
  }

  /** The holder of the mutex has found the cache expired. */
  predicate PassedCache(pc: Pc) {
    pc.Dialing? || pc.Reopening? || pc.HasSession? || pc.Abandoning? || pc.HasChannel?
  }

  ghost predicate CacheInv(s: State, delay: nat) {
    var last := LastFailure(s.net.events);
    && FailuresSpaced(s.net.events, delay)
    && CausesKept(s.net.events)
    && (last.Some? ==> last.value.at <= s.net.now)
    && (s.f.lastFail.Some? ==> last == s.f.lastFail)
    && (last.Some? && (s.f.lastFail.None? || PassedCache(s.pc)) ==> last.value.at + delay <= s.net.now)
  }

  ghost predicate Inv(s: State, delay: nat) {
    Ownership(s) && Channels(s) && Known(s) && TopologyInv(s) && CacheInv(s, delay)
  }

  lemma InitInv(delay: nat)
    ensures Inv(Init(), delay)
  {
  }

  predicate IsCloserStep(a: Action) { a.Steal? || a.CloserClosesChannel? || a.CloserClosesSession? }

  /** Steps that move no session between places. */
  lemma OwnershipSame(s: State, t: State)
    requires Ownership(s) && t.closers == s.closers && t.f.session == s.f.session && Connecting(t.pc) == Connecting(s.pc)
    requires t.net.dialled == s.net.dialled && t.net.closeCalls == s.net.closeCalls && s.net.deadSessions <= t.net.deadSessions
    requires t.pc.NeedDial? || t.pc.Dialing? ==> !IsLiveSession(t.f, t.net)
    ensures Ownership(t)
  {
    assert forall k: nat, id: nat :: HeldBy(t, k, id) == HeldBy(s, k, id);
    forall id: nat | id < t.net.dialled
      ensures Placed(t, id)
    {
      assert Placed(s, id);
      if k: nat :| HeldBy(s, k, id) {
        assert HeldBy(t, k, id);
      }
    }
  }

  /** A new session is being connected. */
  lemma OwnershipDial(s: State, t: State)
    requires Ownership(s) && s.pc.Dialing? && t.pc == HasSession(s.net.dialled) && t.f == s.f && t.closers == s.closers
    requires t.net.dialled == s.net.dialled + 1 && t.net.closeCalls == s.net.closeCalls && t.net.deadSessions == s.net.deadSessions
    ensures Ownership(t)
  {
    assert forall k: nat, id: nat :: HeldBy(t, k, id) == HeldBy(s, k, id);
    forall id: nat | id < t.net.dialled
      ensures Placed(t, id)
    {
      if id < s.net.dialled {
        assert Placed(s, id);
        if k: nat :| HeldBy(s, k, id) {
          assert HeldBy(t, k, id);
        }
      }
    }
  }

  /** The session being connected, or the one it replaces, is closed. */
  lemma OwnershipClose(s: State, t: State)
    requires Ownership(s) && Connecting(s.pc).Some? && Connecting(t.pc).None? && !t.pc.NeedDial? && !t.pc.Dialing?
    requires t.net.dialled == s.net.dialled && t.closers == s.closers
    requires var id := Connecting(s.pc).value;
             if t.f.session == s.f.session then
               t.net.closeCalls == s.net.closeCalls + [id] && t.net.deadSessions == s.net.deadSessions + {id}
             else
               t.f.session == Some(id)
               && (s.f.session.None? ==> t.net.closeCalls == s.net.closeCalls && t.net.deadSessions == s.net.deadSessions)
               && (s.f.session.Some? ==> t.net.closeCalls == s.net.closeCalls + [s.f.session.value]
                                         && t.net.deadSessions == s.net.deadSessions + {s.f.session.value})
    ensures Ownership(t)
  {
    assert forall k: nat, id: nat :: HeldBy(t, k, id) == HeldBy(s, k, id);
    forall id: nat | id < t.net.dialled
      ensures Placed(t, id)
    {
      assert Placed(s, id);
      if k: nat :| HeldBy(s, k, id) {
        assert HeldBy(t, k, id);
      }
    }
  }

  /** Steps inside the mutex and of the environment leave the closers alone. */
  lemma OwnershipInside(s: State, a: Action, delay: nat)
    requires Ownership(s) && Enabled(s, a) && !IsCloserStep(a)
    ensures Ownership(Apply(s, a, delay))
  {
    var t := Apply(s, a, delay);
    match a
    case DialOk => OwnershipDial(s, t);
    case Abandon => OwnershipClose(s, t);
    case Install => OwnershipClose(s, t);
    case _ => OwnershipSame(s, t);
  }

  lemma OwnershipSteal(s: State, k: nat, delay: nat)
    requires Ownership(s) && Channels(s) && Enabled(s, Steal(k))
    ensures Ownership(Apply(s, Steal(k), delay))
  {
    var t := Apply(s, Steal(k), delay);
    assert forall l: nat, id: nat :: HeldBy(t, l, id) <==> HeldBy(s, l, id) || (l == k && s.f.session == Some(id));
    forall id: nat | id < t.net.dialled
      ensures Placed(t, id)
    {
      assert Placed(s, id);
      if l: nat :| HeldBy(s, l, id) {
        assert HeldBy(t, l, id);
      } else if s.f.session == Some(id) {
        assert HeldBy(t, k, id);
      }
    }
  }

  lemma OwnershipCloser(s: State, a: Action, delay: nat)
    requires Ownership(s) && Enabled(s, a) && (a.CloserClosesChannel? || a.CloserClosesSession?)
    ensures Ownership(Apply(s, a, delay))
  {
    var t := Apply(s, a, delay);
    assert s.closers[a.k].session.Some? ==> HeldBy(s, a.k, s.closers[a.k].session.value);
    assert forall l: nat, id: nat :: HeldBy(t, l, id) <==> HeldBy(s, l, id) && (a.CloserClosesChannel? || l != a.k);
    forall id: nat | id < t.net.dialled
      ensures Placed(t, id)
    {
      assert Placed(s, id);
      if l: nat :| HeldBy(s, l, id) {
        assert HeldBy(t, l, id) || id in t.net.closeCalls;
      }
    }
  }

  lemma StepChannels(s: State, a: Action, delay: nat)
    requires Channels(s) && DeclaredOnce(s) && Enabled(s, a)
    ensures Channels(Apply(s, a, delay))
  {
  }

  lemma KnownInside(s: State, a: Action, delay: nat)
    requires Ownership(s) && Channels(s) && Known(s) && Enabled(s, a) && !IsCloserStep(a)
    ensures Known(Apply(s, a, delay))
  {
    var t := Apply(s, a, delay);
    assert forall k: nat, c: nat :: HoldsChannel(t, k, c) == HoldsChannel(s, k, c);
  }

  lemma KnownCloser(s: State, a: Action, delay: nat)
    requires Ownership(s) && Channels(s) && Known(s) && Enabled(s, a) && IsCloserStep(a)
    ensures Known(Apply(s, a, delay))
  {
    var t := Apply(s, a, delay);
    if a.CloserClosesChannel? {
      assert HoldsChannel(s, a.k, s.closers[a.k].channel.value);
    } else if a.CloserClosesSession? && s.closers[a.k].session.Some? {
      assert HeldBy(s, a.k, s.closers[a.k].session.value);
    }
    assert forall k: nat, c: nat | HoldsChannel(t, k, c) :: HoldsChannel(s, k, c) || (a.Steal? && s.f.channel == Some(c));
  }

  lemma StepDeclared(s: State, a: Action, delay: nat)
    requires Channels(s) && DeclaredOnce(s) && FlagIsTrue(s) && Enabled(s, a)
    ensures DeclaredOnce(Apply(s, a, delay))
  {
  }

  lemma StepFlag(s: State, a: Action, delay: nat)
    requires Channels(s) && DeclaredOnce(s) && FlagIsTrue(s) && Enabled(s, a)
    ensures FlagIsTrue(Apply(s, a, delay))
  {
  }

  lemma StepReplies(s: State, a: Action, delay: nat)
    requires RepliesDeclared(s) && FlagIsTrue(s) && Enabled(s, a)
    ensures RepliesDeclared(Apply(s, a, delay))
  {
  }

  lemma StepTopology(s: State, a: Action, delay: nat)
    requires Channels(s) && TopologyInv(s) && Enabled(s, a)
    ensures TopologyInv(Apply(s, a, delay))
  {
    StepDeclared(s, a, delay);
    StepFlag(s, a, delay);
    StepReplies(s, a, delay);
  }

  /** What one more event does to the history's properties. */
  lemma EventAppended(es: seq<Event>, e: Event, delay: nat)
    requires FailuresSpaced(es, delay) && CausesKept(es)
    ensures LastFailure(es + [e]) == match e { case Recorded(failure) => Some(failure) case Reset => None case Replied(_) => LastFailure(es) }
    ensures (e.Recorded? && LastFailure(es).Some? ==> LastFailure(es).value.at + delay <= e.failure.at) ==> FailuresSpaced(es + [e], delay)
    ensures (e.Replied? && e.reply.Suppressed? ==> LastFailure(es).Some? && e.reply.cause == LastFailure(es).value.cause) ==> CausesKept(es + [e])
  {
    var fs := es + [e];
    assert fs[..|es|] == es;
    assert forall i | 0 <= i < |es| :: fs[..i] == es[..i];
  }

  lemma CacheReturn(s: State, r: Reply, delay: nat)
    requires CacheInv(s, delay)
    requires r.Suppressed? ==> s.f.lastFail.Some? && r.cause == s.f.lastFail.value.cause
    ensures CacheInv(Return(s, r), delay)
  {
    EventAppended(s.net.events, Replied(r), delay);
  }

  lemma CacheFail(s: State, cause: Cause, delay: nat)
    requires CacheInv(s, delay) && PassedCache(s.pc)
    ensures CacheInv(Fail(s, cause), delay)
  {
    var failure := Failure(s.net.now, cause);
    EventAppended(s.net.events, Recorded(failure), delay);
    var t := s.(pc := Free, f := s.f.(lastFail := Some(failure)), net := s.net.(events := s.net.events + [Recorded(failure)]));
    EventAppended(t.net.events, Replied(Failed(cause)), delay);
  }

  /** Steps that add no event: the cache may be cleared, or passed, only once it has expired. */
  lemma CacheSame(s: State, t: State, delay: nat)
    requires CacheInv(s, delay) && t.net.events == s.net.events && s.net.now <= t.net.now
    requires t.f.lastFail.Some? ==> t.f.lastFail == s.f.lastFail
    requires t.f.lastFail.None? || PassedCache(t.pc) ==>
               s.f.lastFail.None? || PassedCache(s.pc) || !Cached(s.f, s.net.now, delay)
    ensures CacheInv(t, delay)
  {
  }

  lemma StepCache(s: State, a: Action, delay: nat)
    requires CacheInv(s, delay) && Enabled(s, a)
    ensures CacheInv(Apply(s, a, delay), delay)
  {
    match a
    case CheckCache =>
      if Cached(s.f, s.net.now, delay) {
        CacheReturn(s, Suppressed(s.f.lastFail.value.cause), delay);
      } else {
        CacheSame(s, Apply(s, a, delay), delay);
      }
    case DialFails(e) => CacheFail(s, DialError(e), delay);
    case DialNil => CacheFail(s, NilSession, delay);
    case OpenFails(e) =>
      if s.pc.Reopening? {
        CacheFail(s, OpenError(e), delay);
      } else {
        CacheSame(s, Apply(s, a, delay), delay);
      }
    case OpenNil =>
      if s.pc.Reopening? {
        CacheFail(s, NilChannel, delay);
      } else {
        CacheSame(s, Apply(s, a, delay), delay);
      }
    case Abandon => CacheFail(s.(net := CloseSession(s.net, s.pc.s)), s.pc.cause, delay);
    case Topology =>
      if s.f.topologyDeclared {
        CacheReturn(s, Channel(s.f.channel.value), delay);
      } else {
        CacheSame(s, Apply(s, a, delay), delay);
      }
    case TopologyOk =>
      CacheReturn(s.(f := s.f.(topologyDeclared := true), net := s.net.(declared := s.net.declared + [s.f.channel.value])),
                  Channel(s.f.channel.value), delay);
    case TopologyFails(e) => CacheReturn(s, TopologyFailed(e), delay);
    case Steal(_) => EventAppended(s.net.events, Reset, delay);
    case _ => CacheSame(s, Apply(s, a, delay), delay);
  }

  lemma StepInv(s: State, a: Action, delay: nat)
    requires Inv(s, delay) && Enabled(s, a)
    ensures Inv(Apply(s, a, delay), delay)
  {
    if a.Steal? {
      OwnershipSteal(s, a.k, delay);
    } else if IsCloserStep(a) {
      OwnershipCloser(s, a, delay);
    } else {
      OwnershipInside(s, a, delay);
    }
    if IsCloserStep(a) {
      KnownCloser(s, a, delay);
    } else {
      KnownInside(s, a, delay);
    }
    StepChannels(s, a, delay);
    StepTopology(s, a, delay);
    StepCache(s, a, delay);
  }

  lemma {:induction false} RunInv(s: State, steps: seq<Action>, delay: nat)
    requires Inv(s, delay) && Run(s, steps, delay)
    ensures Inv(Exec(s, steps, delay), delay)
    decreases |steps|
  {
    if steps != [] {
      StepInv(s, steps[0], delay);
      RunInv(Apply(s, steps[0], delay), steps[1..], delay);
    }
  }

  // ---- what holds of every run ----

  /** How many of the four places a session is in. */
  function Places(s: State, id: Sid): nat {
    (if id in s.net.closeCalls then 1 else 0)
    + (if Connecting(s.pc) == Some(id) then 1 else 0)
    + (if s.f.session == Some(id) then 1 else 0)
    + |set k | k in s.closers && HeldBy(s, k, id)|
  }

  /**
   * Every dialled session is at all times in exactly one place: being connected, installed, held
   * by exactly one closer, or closed; and no session is closed twice.
   */
  lemma SessionsHaveOneOwner(steps: seq<Action>, delay: nat)
    requires Run(Init(), steps, delay)
    ensures var s := Exec(Init(), steps, delay);
            Distinct(s.net.closeCalls) && forall id: nat | id < s.net.dialled :: Places(s, id) == 1
  {
    InitInv(delay);
    RunInv(Init(), steps, delay);
    var s := Exec(Init(), steps, delay);
    forall id: nat | id < s.net.dialled
      ensures Places(s, id) == 1
    {
      var holders := set k | k in s.closers && HeldBy(s, k, id);
      assert Placed(s, id);
      if k: nat :| HeldBy(s, k, id) {
        assert holders == {k};
      } else {
        assert holders == {};
      }
    }
  }

  /** An installed session that is alive stays installed and alive, unless the broker kills it or Close takes it. */
  lemma LiveSessionsAreKept(s: State, a: Action, delay: nat)
    requires Inv(s, delay) && Enabled(s, a) && s.f.session.Some? && IsLiveSession(s.f, s.net)
    requires !a.Steal? && a != KillSession(s.f.session.value)
    ensures var t := Apply(s, a, delay); t.f.session == s.f.session && IsLiveSession(t.f, t.net)
  {
    if a.CloserClosesSession? && s.closers[a.k].session.Some? {
      assert HeldBy(s, a.k, s.closers[a.k].session.value);
    }
  }

  /**
   * Every channel Channel() ever returned had the topology declared on it, the flag means that of
   * the installed channel, no channel is declared twice, and the installed channel was opened on
   * the installed session.
   */
  lemma ReturnedChannelsAreDeclared(steps: seq<Action>, delay: nat)
    requires Run(Init(), steps, delay)
    ensures var s := Exec(Init(), steps, delay);
            && (forall i | 0 <= i < |s.net.events| && s.net.events[i].Replied? && s.net.events[i].reply.Channel? ::
                  s.net.events[i].reply.ch in s.net.declared)
            && (s.f.topologyDeclared ==> s.f.channel.Some? && s.f.channel.value in s.net.declared)
            && Distinct(s.net.declared)
            && (s.f.channel.Some? ==> s.f.session.Some? && s.f.channel.value < |s.net.openedOn|
                                      && s.net.openedOn[s.f.channel.value] == s.f.session.value)
  {
    InitInv(delay);
    RunInv(Init(), steps, delay);
  }

  /** The reply of a successful call is the installed channel itself. */
  lemma ReplyIsInstalled(s: State, a: Action, delay: nat)
    requires Inv(s, delay) && Enabled(s, a) && |Apply(s, a, delay).net.events| > |s.net.events|
    ensures var t := Apply(s, a, delay);
            var e := t.net.events[|t.net.events| - 1];
            e.Replied? && e.reply.Channel? ==> t.f.channel == Some(e.reply.ch) && t.f.topologyDeclared && s.f.channel == t.f.channel
  {
  }

  // ---- rate of recorded failures ----

  function IsRecorded(e: Event): nat { if e.Recorded? then 1 else 0 }

  function Recordings(es: seq<Event>): nat {
    if es == [] then 0 else Recordings(es[..|es| - 1]) + IsRecorded(es[|es| - 1])
  }

  lemma {:induction false} RecordingsAre(es: seq<Event>)
    ensures Recordings(es) == |set i | 0 <= i < |es| && es[i].Recorded?|
  {
    var all := set i | 0 <= i < |es| && es[i].Recorded?;
    if es == [] {
      assert all == {};
    } else {
      var init := es[..|es| - 1];
      var before := set i | 0 <= i < |init| && init[i].Recorded?;
      RecordingsAre(init);
      assert all == before + if es[|es| - 1].Recorded? then {|es| - 1} else {};
    }
  }

  /** Without a Close, N recorded failures span at least (N - 1) * delay. */
  lemma {:induction false} FailuresSpan(es: seq<Event>, delay: nat, first: nat)
    requires FailuresSpaced(es, delay) && Recordings(es) > 0
    requires forall i | 0 <= i < |es| :: !es[i].Reset? && (es[i].Recorded? ==> first <= es[i].failure.at)
    ensures LastFailure(es).Some? && first + (Recordings(es) - 1) * delay <= LastFailure(es).value.at
  {
    var init, e := es[..|es| - 1], es[|es| - 1];
    assert forall i | 0 <= i < |init| :: init[..i] == es[..i];
    if Recordings(init) > 0 {
      FailuresSpan(init, delay, first);
      OneMore(Recordings(init) - 1, delay);
    } else {
      NoRecordings(init);
    }
  }

  lemma OneMore(n: nat, delay: nat)
    ensures (n + 1) * delay == n * delay + delay
  {
  }

  lemma {:induction false} NoRecordings(es: seq<Event>)
    requires Recordings(es) == 0 && forall i | 0 <= i < |es| :: !es[i].Reset?
    ensures LastFailure(es) == None
  {
    if es != [] {
      NoRecordings(es[..|es| - 1]);
    }
  }

  predicate NoResetBetween(es: seq<Event>, i: nat, j: nat)
    requires j <= |es|
  {
    forall k | i < k < j :: !es[k].Reset?
  }

  /** After a recorded failure, until a Close, the last failure is that one or a later one. */
  lemma {:induction false} LastFailureIsLater(es: seq<Event>, delay: nat, i: nat, j: nat)
    requires FailuresSpaced(es, delay) && i < j <= |es| && es[i].Recorded? && NoResetBetween(es, i, j)
    ensures LastFailure(es[..j]).Some? && es[i].failure.at <= LastFailure(es[..j]).value.at
  {
    assert es[..j][..j - 1] == es[..j - 1];
    if i < j - 1 {
      LastFailureIsLater(es, delay, i, j - 1);
    }
  }

  /** The last failure is in the history, and nothing but replies came after it. */
  lemma {:induction false} LastFailureAt(es: seq<Event>) returns (k: nat)
    requires LastFailure(es).Some?
    ensures k < |es| && es[k] == Recorded(LastFailure(es).value) && forall l | k < l < |es| :: es[l].Replied?
  {
    k := |es| - 1;
    if es[k].Replied? {
      k := LastFailureAt(es[..k]);
    }
  }

  /** The event at i is a suppressed reply that repeats the failure recorded at k. */
  predicate Repeats(es: seq<Event>, k: nat, i: nat)
    requires i < |es| && es[i].Replied? && es[i].reply.Suppressed?
  {
    k < i && es[k].Recorded? && es[k].failure.cause == es[i].reply.cause && forall l | k < l < i :: es[l].Replied?
  }

  /**
   * In every run, any two failures with no Close between them are at least reconnectDelay apart, and
   * every suppressed call is answered with the cause of a failure recorded before it, since which
   * there was no other failure and no Close.
   */
  lemma NegativeCacheHolds(steps: seq<Action>, delay: nat)
    requires Run(Init(), steps, delay)
    ensures var es := Exec(Init(), steps, delay).net.events;
            && (forall i: nat, j: nat | i < j < |es| && es[i].Recorded? && es[j].Recorded? && NoResetBetween(es, i, j) ::
                  es[i].failure.at + delay <= es[j].failure.at)
            && (forall i: nat | i < |es| && es[i].Replied? && es[i].reply.Suppressed? :: exists k: nat :: Repeats(es, k, i))
  {
    InitInv(delay);
    RunInv(Init(), steps, delay);
    var es := Exec(Init(), steps, delay).net.events;
    forall i: nat, j: nat | i < j < |es| && es[i].Recorded? && es[j].Recorded? && NoResetBetween(es, i, j)
      ensures es[i].failure.at + delay <= es[j].failure.at
    {
      LastFailureIsLater(es, delay, i, j);
    }
    forall i: nat | i < |es| && es[i].Replied? && es[i].reply.Suppressed?
      ensures exists k: nat :: Repeats(es, k, i)
    {
      var k := LastFailureAt(es[..i]);
      assert Repeats(es, k, i);
    }
  }

  /** A stretch of history keeps the spacing. */
  lemma {:induction false} LastFailureOfSuffix(es: seq<Event>, a: nat, i: nat)
    requires a <= i <= |es| && LastFailure(es[a..i]).Some?
    ensures LastFailure(es[..i]) == LastFailure(es[a..i])
  {
    assert es[..i][..i - 1] == es[..i - 1];
    assert es[a..i][..i - a - 1] == es[a..i - 1];
    if es[i - 1].Replied? {
      LastFailureOfSuffix(es, a, i - 1);
    }
  }

  lemma SegmentSpaced(es: seq<Event>, a: nat, b: nat, delay: nat)
    requires a <= b <= |es| && FailuresSpaced(es, delay)
    ensures FailuresSpaced(es[a..b], delay)
  {
    var w := es[a..b];
    forall i | 0 <= i < |w| && w[i].Recorded? && LastFailure(w[..i]).Some?
      ensures LastFailure(w[..i]).value.at + delay <= w[i].failure.at
    {
      assert w[..i] == es[a..a + i] && w[i] == es[a + i];
      LastFailureOfSuffix(es, a, a + i);
    }
  }

  /**
   * In every run, any stretch without a Close whose failures fall into a window of length len
   * holds at most len / reconnectDelay + 1 of them.
   */
  lemma FailuresInWindow(steps: seq<Action>, delay: nat, a: nat, b: nat, from: nat, len: nat)
    requires delay > 0 && Run(Init(), steps, delay)
    requires a <= b <= |Exec(Init(), steps, delay).net.events|
    requires var w := Exec(Init(), steps, delay).net.events[a..b];
             forall i | 0 <= i < |w| :: !w[i].Reset? && (w[i].Recorded? ==> from <= w[i].failure.at <= from + len)
    ensures var w := Exec(Init(), steps, delay).net.events[a..b];
            |set i | 0 <= i < |w| && w[i].Recorded?| <= len / delay + 1
  {
    InitInv(delay);
    RunInv(Init(), steps, delay);
    var es := Exec(Init(), steps, delay).net.events;
    var w := es[a..b];
    SegmentSpaced(es, a, b, delay);
    RecordingsAre(w);
    if Recordings(w) > 0 {
      FailuresSpan(w, delay, from);
      var k := LastFailureAt(w);
      DivisionBound(Recordings(w) - 1, delay, len);
    }
  }

  lemma DivisionBound(q: nat, d: nat, x: nat)
    requires d > 0 && q * d <= x
    ensures q <= x / d
  {
    var excess := q - x / d;
    assert excess * d == q * d - (x / d) * d;
    AtLeastOnce(excess, d);
  }

  lemma AtLeastOnce(m: int, d: nat)
    ensures m >= 1 ==> m * d >= d
  {
  }
}
