/**
 ClientSession: five connection states, a background reconnect loop and the ownership of
 transports. A step is the code between two awaits; closing a transport is one step, and starting
 one ends in a handshake or in a TransportError. Transports and loops are named by the order they
 were made in.
 */
module Session {
  import opened Wrappers
  import opened Agent

  const PROTOCOL_VERSION := 1

  datatype ConnectionState = CONNECTING | CONNECTED | RECONNECTING | DISCONNECTED | AUTH_REQUIRED

  /** How transport.start() ends. Permanent is BootstrapRequired or VersionMismatch. */
  datatype Started = Greeted(h: Handshake) | AuthError | Permanent | LinkFailure

  /** check_handshake. */
  predicate Trusted(h: Handshake) {
    h.protocolVersion == PROTOCOL_VERSION && VersionsCompatible(h.builtVersion, h.runningVersion)
  }

  /** _connect: an untrusted handshake is a VersionMismatch. */
  function Checked(r: Started): Started {
    if r.Greeted? && !Trusted(r.h) then Permanent else r
  }

  /** How transport.request() ends. Mismatch is an AgentError with code version_mismatch. */
  datatype Replied = Fine | OtherAgentError | Mismatch | CallAuthError | CallPermanent | CallLinkFailure

  predicate EndsSession(r: Replied) {
    r.Mismatch? || r.CallAuthError? || r.CallPermanent?
  }

  /** The reconnect loop, with the delays it slept and the attempts it made. */
  datatype Phase = Created | Sleeping | Attempting(transport: nat)
  datatype Loop = Loop(phase: Phase, attempt: nat, sleeps: seq<nat>, tries: nat)

  /** The public operation under way, at the await it is suspended in. */
  datatype Op =
    | Idle
    | Starting(transport: nat)
    | Stopping(loop: nat)
    | Cancelling(loop: nat)      // reconnect_now waits for the cancelled loop
    | Retrying(transport: nat)   // reconnect_now waits for its own attempt

  datatype Session = Session(
    state: ConnectionState,
    transport: Option<nat>,
    handshake: Option<Handshake>,
    stopped: bool,
    task: Option<nat>,          // _reconnect_task
    loops: map<nat, Loop>,      // the loops that are still alive
    loopsMade: nat,
    op: Op,
    calls: nat,                 // requests in flight
    made: nat,                  // transports the factory made
    closed: set<nat>)

  const NEW_SESSION :=
    Session(DISCONNECTED, None, None, false, None, map[], 0, Idle, 0, 0, {})

  datatype Event =
    | StartCall | StartResult(r: Started)
    | StopCall | StopResume
    | ReconnectCall | ReconnectResume | ReconnectResult(r: Started)
    | LoopBegin(loop: nat) | LoopWake(loop: nat) | LoopResult(loop: nat, r: Started)
    | LoopCancelled(loop: nat)
    | CallBegin | CallReturn(reply: Replied)

  type Backoff = b: seq<nat> | b != [] witness [0]

  function Delay(backoff: Backoff, attempt: nat): nat {
    backoff[if attempt < |backoff| - 1 then attempt else |backoff| - 1]
  }

  // ---------- the steps ----------

  function CloseTransport(s: Session): Session {
    match s.transport
    case None => s
    case Some(t) => s.(transport := None, closed := s.closed + {t})
  }

  function Make(s: Session): Session {
    s.(made := s.made + 1)
  }

  function CreateLoop(s: Session): Session {
    s.(task := Some(s.loopsMade), loopsMade := s.loopsMade + 1,
       loops := s.loops[s.loopsMade := Loop(Created, 0, [], 0)])
  }

  function EndLoop(s: Session, k: nat): Session {
    s.(loops := s.loops - {k})
  }

  /** What _connect leaves for transport t, and the state a retry that must stop is left in. */
  function Settle(s: Session, t: nat, r: Started): Session {
    match Checked(r)
    case Greeted(h) => s.(transport := Some(t), handshake := Some(h), state := CONNECTED)
    case AuthError => s.(closed := s.closed + {t}, state := AUTH_REQUIRED)
    case Permanent => s.(closed := s.closed + {t}, state := DISCONNECTED)
    case LinkFailure => s.(closed := s.closed + {t})
  }

  /** The loop's while test and its next sleep. */
  function NextSleep(backoff: Backoff, s: Session, k: nat, loop: Loop): Session {
    if s.stopped then EndLoop(s, k)
    else s.(loops := s.loops[k := loop.(phase := Sleeping,
                                        sleeps := loop.sleeps + [Delay(backoff, loop.attempt)])])
  }

  function Stopped(s: Session): Session {
    CloseTransport(s).(state := DISCONNECTED, op := Idle)
  }

  function Retry(s: Session): Session {
    var c := CloseTransport(s);
    Make(c).(state := RECONNECTING, op := Retrying(c.made))
  }

  predicate Live(s: Session) {
    s.task.Some? && s.task.value in s.loops
  }

  predicate CancelPending(s: Session, k: nat) {
    s.op == Stopping(k) || s.op == Cancelling(k)
  }

  predicate Runs(s: Session, k: nat, e: Event) {
    k in s.loops && !CancelPending(s, k) &&
    match e
    case LoopBegin(_) => s.loops[k].phase.Created?
    case LoopWake(_) => s.loops[k].phase.Sleeping?
    case _ => s.loops[k].phase.Attempting?
  }

  predicate Enabled(s: Session, e: Event) {
    match e
    case StartCall => s.op.Idle?
    case StartResult(_) => s.op.Starting?
    case StopCall => s.op.Idle?
    case StopResume => s.op.Stopping? && s.op.loop !in s.loops
    case ReconnectCall => s.op.Idle?
    case ReconnectResume => s.op.Cancelling? && s.op.loop !in s.loops
    case ReconnectResult(_) => s.op.Retrying?
    case LoopBegin(k) => Runs(s, k, e)
    case LoopWake(k) => Runs(s, k, e)
    case LoopResult(k, _) => Runs(s, k, e)
    case LoopCancelled(k) => k in s.loops && CancelPending(s, k)
    case CallBegin => true
    case CallReturn(_) => s.calls > 0
  }

  function Step(backoff: Backoff, s: Session, e: Event): Session
    requires Enabled(s, e)
  {
    match e
    case StartCall => Make(s).(stopped := false, state := CONNECTING, op := Starting(s.made))
    case StartResult(r) =>
      var t := Settle(s, s.op.transport, r).(op := Idle);
      if Checked(r).LinkFailure? then t.(state := DISCONNECTED) else t
    case StopCall =>
      var t := s.(stopped := true, task := None);
      if Live(s) then t.(op := Stopping(s.task.value)) else Stopped(t)
    case StopResume => Stopped(s)
    case ReconnectCall =>
      if s.stopped then s
      else
        var t := s.(task := None);
        if Live(s) then t.(op := Cancelling(s.task.value)) else Retry(t)
    case ReconnectResume => Retry(s)
    case ReconnectResult(r) =>
      var t := Settle(s, s.op.transport, r).(op := Idle);
      if Checked(r).LinkFailure? then CreateLoop(t) else t
    case LoopBegin(k) => NextSleep(backoff, CloseTransport(s), k, s.loops[k])
    case LoopWake(k) =>
      if s.stopped then EndLoop(s, k)
      else
        var loop := s.loops[k];
        Make(s).(loops := s.loops[k := loop.(phase := Attempting(s.made), tries := loop.tries + 1)])
    case LoopResult(k, r) =>
      var loop := s.loops[k];
      var t := Settle(s, loop.phase.transport, r);
      if Checked(r).LinkFailure?
      then NextSleep(backoff, t, k, loop.(attempt := loop.attempt + 1))
      else EndLoop(t, k)
    case LoopCancelled(k) =>
      var t := EndLoop(s, k);
      if s.loops[k].phase.Attempting? then t.(closed := s.closed + {s.loops[k].phase.transport}) else t
    case CallBegin =>
      if s.state == CONNECTED && s.transport.Some? then s.(calls := s.calls + 1) else s
    case CallReturn(reply) =>
      var t := s.(calls := s.calls - 1);
      match reply
      case Fine => t
      case OtherAgentError => t
      case Mismatch => CloseTransport(t).(state := DISCONNECTED)
      case CallPermanent => CloseTransport(t).(state := DISCONNECTED)
      case CallAuthError => CloseTransport(t).(state := AUTH_REQUIRED)
      case CallLinkFailure =>
        if s.stopped || s.state == RECONNECTING then t else CreateLoop(t.(state := RECONNECTING))
  }

  // ---------- safety ----------

  /** A transport that is being started. */
  ghost predicate InStart(s: Session, t: nat) {
    s.op == Starting(t) || s.op == Retrying(t)
    || exists k :: k in s.loops && s.loops[k].phase == Attempting(t)
  }

  /** Every transport made is closed, held or being started. */
  ghost predicate Owned(s: Session) {
    forall t: nat | t < s.made :: t in s.closed || s.transport == Some(t) || InStart(s, t)
  }

  ghost predicate NoLoop(s: Session) {
    forall k :: k !in s.loops
  }

  ghost predicate Safe(s: Session) {
    // At most one reconnect loop is alive, and only while reconnecting.
    && (forall j, k | j in s.loops && k in s.loops :: j == k)
    && (forall k | k in s.loops :: s.state == RECONNECTING)
    // A session that gave up holds nothing.
    && (s.state == DISCONNECTED || s.state == AUTH_REQUIRED ==> s.transport.None? && NoLoop(s))
    // A connected session holds an open transport whose handshake was accepted.
    && (s.state == CONNECTED ==>
          s.transport.Some? && s.transport.value < s.made && s.transport.value !in s.closed
          && s.handshake.Some? && s.handshake.value.protocolVersion == 1
          && VersionsCompatible(s.handshake.value.builtVersion, s.handshake.value.runningVersion))
    // Every other transport ever made is closed or still being started.
    && Owned(s)
  }

  ghost predicate LoopOk(backoff: Backoff, s: Session, k: nat) {
    k in s.loops ==>
      var loop := s.loops[k];
      && k < s.loopsMade
      && (s.task == Some(k) || CancelPending(s, k))
      && (!loop.phase.Created? ==> s.transport.None?)
      && (loop.phase.Attempting? ==>
            loop.phase.transport < s.made && loop.phase.transport !in s.closed)
      && BackoffLaw(backoff, loop)
  }

  /** The k-th sleep is backoff[min(k, len - 1)], and each attempt follows a sleep of its own. */
  ghost predicate BackoffLaw(backoff: Backoff, loop: Loop) {
    && (forall i | 0 <= i < |loop.sleeps| ::
          loop.sleeps[i] == backoff[if i < |backoff| - 1 then i else |backoff| - 1])
    && match loop.phase
       case Created => loop.sleeps == [] && loop.tries == 0 && loop.attempt == 0
       case Sleeping => |loop.sleeps| == loop.attempt + 1 == loop.tries + 1
       case Attempting(_) => |loop.sleeps| == loop.attempt + 1 == loop.tries
  }

  ghost predicate OpOk(s: Session) {
    match s.op
    case Idle => s.stopped ==> NoLoop(s) && s.state in {DISCONNECTED, AUTH_REQUIRED}
    case Starting(t) =>
      s.state == CONNECTING && s.transport.None? && s.calls == 0 && !s.stopped
      && NoLoop(s) && t < s.made && t !in s.closed
    case Stopping(k) =>
      s.state in {RECONNECTING, DISCONNECTED, AUTH_REQUIRED} && s.stopped && s.task.None?
      && k < s.loopsMade
    case Cancelling(k) =>
      && s.state in {RECONNECTING, DISCONNECTED, AUTH_REQUIRED}
      && (s.state != RECONNECTING ==> s.calls == 0)
      && !s.stopped && s.task.None? && k < s.loopsMade
    case Retrying(t) =>
      s.state == RECONNECTING && s.transport.None? && !s.stopped && NoLoop(s)
      && t < s.made && t !in s.closed
  }

  ghost predicate Inv(backoff: Backoff, s: Session) {
    && Safe(s)
    && OpOk(s)
    && (forall t | t in s.closed :: t < s.made)
    && (s.state == CONNECTING ==> s.op.Starting?)
    && (s.transport.Some? ==> s.transport.value < s.made && s.transport.value !in s.closed)
    && (s.task.Some? ==> s.task.value < s.loopsMade)
    && (forall k :: LoopOk(backoff, s, k))
  }

  /** What safety asks of the caller, and no more (TameExact): start comes first, after stop or after
      a failure, with no request in flight; and a request that ends the session for good returns
      neither beside a reconnect loop nor into a reconnect_now. */
  ghost predicate Tame(s: Session, e: Event) {
    match e
    case StartCall => NoLoop(s) && s.transport.None? && s.calls == 0
    case CallReturn(reply) => EndsSession(reply) ==> NoLoop(s) && MayEnd(s)
    case _ => true
  }

  /** The await a session may be ended in: none, a stop, or a reconnect_now that has not begun its
      attempt when no other request is in flight. */
  predicate MayEnd(s: Session) {
    match s.op
    case Idle => true
    case Stopping(_) => true
    case Cancelling(_) => s.calls == 1
    case _ => false
  }

  lemma EndingStep(backoff: Backoff, s: Session, reply: Replied)
    requires Inv(backoff, s) && s.calls > 0 && EndsSession(reply) && NoLoop(s) && MayEnd(s)
    ensures Inv(backoff, Step(backoff, s, CallReturn(reply)))
  {
    OwnedStays(s, Step(backoff, s, CallReturn(reply)));
  }

  lemma LinkFailureStep(backoff: Backoff, s: Session)
    requires Inv(backoff, s) && s.calls > 0
    ensures Inv(backoff, Step(backoff, s, CallReturn(CallLinkFailure)))
  {
    var t := Step(backoff, s, CallReturn(CallLinkFailure));
    forall k ensures LoopOk(backoff, t, k) {
      assert LoopOk(backoff, s, k);
    }
    OwnedStays(s, t);
  }

  /** The number of requests in flight is all that other calls and returns change. */
  lemma OtherCalls(backoff: Backoff, s: Session, calls: nat)
    requires Inv(backoff, s) && (calls <= s.calls || s.state == CONNECTED)
    ensures Inv(backoff, s.(calls := calls))
  {
    var t := s.(calls := calls);
    forall k ensures LoopOk(backoff, t, k) {
      assert LoopOk(backoff, s, k);
    }
    OwnedStays(s, t);
  }

  lemma CallStep(backoff: Backoff, s: Session, e: Event)
    requires Inv(backoff, s) && Enabled(s, e) && Tame(s, e) && (e.CallBegin? || e.CallReturn?)
    ensures Inv(backoff, Step(backoff, s, e))
  {
    if e.CallReturn? && EndsSession(e.reply) {
      EndingStep(backoff, s, e.reply);
    } else if e == CallReturn(CallLinkFailure) {
      LinkFailureStep(backoff, s);
    } else {
      OtherCalls(backoff, s, Step(backoff, s, e).calls);
    }
  }

  lemma StartStep(backoff: Backoff, s: Session, e: Event)
    requires Inv(backoff, s) && Enabled(s, e) && Tame(s, e)
    requires e.StartCall? || e.StartResult?
    ensures Inv(backoff, Step(backoff, s, e))
  {
  }

  lemma StopStep(backoff: Backoff, s: Session, e: Event)
    requires Inv(backoff, s) && Enabled(s, e) && Tame(s, e)
    requires e.StopCall? || e.StopResume?
    ensures Inv(backoff, Step(backoff, s, e))
  {
    var t := Step(backoff, s, e);
    assert forall k | k in s.loops :: LoopOk(backoff, s, k);
    assert s.op.Idle? && !Live(s) ==> NoLoop(s);
    assert e.StopResume? ==> NoLoop(s);
    forall k ensures LoopOk(backoff, t, k) {
      assert LoopOk(backoff, s, k);
    }
    forall x: nat | x < t.made ensures x in t.closed || t.transport == Some(x) || InStart(t, x) {
      assert x < s.made ==> x in s.closed || s.transport == Some(x) || InStart(s, x);
    }
  }

  lemma RetryCallStep(backoff: Backoff, s: Session)
    requires Inv(backoff, s) && Enabled(s, ReconnectCall)
    ensures Inv(backoff, Step(backoff, s, ReconnectCall))
  {
    var t := Step(backoff, s, ReconnectCall);
    assert forall k | k in s.loops :: LoopOk(backoff, s, k);
    assert !Live(s) ==> NoLoop(s);
    forall k ensures LoopOk(backoff, t, k) {
      assert LoopOk(backoff, s, k);
    }
    OwnedStays(s, t);
  }

  lemma RetryResumeStep(backoff: Backoff, s: Session)
    requires Inv(backoff, s) && Enabled(s, ReconnectResume)
    ensures Inv(backoff, Step(backoff, s, ReconnectResume))
  {
    var t := Step(backoff, s, ReconnectResume);
    assert forall k | k in s.loops :: LoopOk(backoff, s, k);
    assert NoLoop(s);
    OwnedStays(s, t);
  }

  lemma RetryResultStep(backoff: Backoff, s: Session, r: Started)
    requires Inv(backoff, s) && Enabled(s, ReconnectResult(r))
    ensures Inv(backoff, Step(backoff, s, ReconnectResult(r)))
  {
    var t := Step(backoff, s, ReconnectResult(r));
    forall k ensures LoopOk(backoff, t, k) {
      assert LoopOk(backoff, s, k);
    }
    OwnedStays(s, t);
  }

  /** Outside the loops, ownership passes from one step to the next if no transport is dropped. */
  lemma OwnedStays(s: Session, t: Session)
    requires Owned(s)
    requires s.closed <= t.closed
    requires forall x: nat | x < s.made && (s.transport == Some(x) || InStart(s, x)) ::
               x in t.closed || t.transport == Some(x) || InStart(t, x)
    requires forall x: nat | s.made <= x < t.made :: InStart(t, x)
    ensures Owned(t)
  {
  }

  lemma LoopBeginStep(backoff: Backoff, s: Session, k: nat)
    requires Inv(backoff, s) && Enabled(s, LoopBegin(k))
    ensures Inv(backoff, Step(backoff, s, LoopBegin(k)))
  {
    var t := Step(backoff, s, LoopBegin(k));
    forall j ensures LoopOk(backoff, t, j) {
      assert LoopOk(backoff, s, j);
    }
    OneLoopOwns(backoff, s, k);
    OwnedStays(s, t);
  }

  lemma LoopWakeStep(backoff: Backoff, s: Session, k: nat)
    requires Inv(backoff, s) && Enabled(s, LoopWake(k))
    ensures Inv(backoff, Step(backoff, s, LoopWake(k)))
  {
    var t := Step(backoff, s, LoopWake(k));
    forall j ensures LoopOk(backoff, t, j) {
      assert LoopOk(backoff, s, j);
    }
    OneLoopOwns(backoff, s, k);
    assert k in t.loops ==> t.loops[k].phase == Attempting(s.made);
    OwnedStays(s, t);
  }

  lemma LoopResultStep(backoff: Backoff, s: Session, k: nat, r: Started)
    requires Inv(backoff, s) && Enabled(s, LoopResult(k, r))
    ensures Inv(backoff, Step(backoff, s, LoopResult(k, r)))
  {
    var t := Step(backoff, s, LoopResult(k, r));
    forall j ensures LoopOk(backoff, t, j) {
      assert LoopOk(backoff, s, j);
    }
    OneLoopOwns(backoff, s, k);
    OwnedStays(s, t);
  }

  lemma LoopCancelledStep(backoff: Backoff, s: Session, k: nat)
    requires Inv(backoff, s) && Enabled(s, LoopCancelled(k))
    ensures Inv(backoff, Step(backoff, s, LoopCancelled(k)))
  {
    var t := Step(backoff, s, LoopCancelled(k));
    forall j ensures LoopOk(backoff, t, j) {
      assert LoopOk(backoff, s, j);
    }
    OneLoopOwns(backoff, s, k);
    OwnedStays(s, t);
  }

  /** While a loop is alive, what is being started is started by it. */
  lemma OneLoopOwns(backoff: Backoff, s: Session, k: nat)
    requires Inv(backoff, s) && k in s.loops
    ensures forall x | InStart(s, x) :: s.loops[k].phase == Attempting(x)
    ensures LoopOk(backoff, s, k) && forall j | j in s.loops :: j == k
  {
  }

  /** The invariant over every run of tame events. */
  lemma InvStep(backoff: Backoff, s: Session, e: Event)
    requires Inv(backoff, s) && Enabled(s, e) && Tame(s, e)
    ensures Inv(backoff, Step(backoff, s, e))
  {
    match e {
      case LoopBegin(k) => LoopBeginStep(backoff, s, k);
      case LoopWake(k) => LoopWakeStep(backoff, s, k);
      case LoopResult(k, r) => LoopResultStep(backoff, s, k, r);
      case LoopCancelled(k) => LoopCancelledStep(backoff, s, k);
      case CallBegin => CallStep(backoff, s, e);
      case CallReturn(_) => CallStep(backoff, s, e);
      case StartCall => StartStep(backoff, s, e);
      case StartResult(_) => StartStep(backoff, s, e);
      case StopCall => StopStep(backoff, s, e);
      case StopResume => StopStep(backoff, s, e);
      case ReconnectCall => RetryCallStep(backoff, s);
      case ReconnectResume => RetryResumeStep(backoff, s);
      case ReconnectResult(r) => RetryResultStep(backoff, s, r);
    }
  }

  ghost predicate IsRun(backoff: Backoff, s: Session, events: seq<Event>)
    decreases |events|
  {
    events == []
    || (Enabled(s, events[0]) && Tame(s, events[0])
        && IsRun(backoff, Step(backoff, s, events[0]), events[1..]))
  }

  ghost function Run(backoff: Backoff, s: Session, events: seq<Event>): Session
    requires IsRun(backoff, s, events)
    decreases |events|
  {
    if events == [] then s else Run(backoff, Step(backoff, s, events[0]), events[1..])
  }

  lemma {:induction false} InvRun(backoff: Backoff, s: Session, events: seq<Event>)
    requires Inv(backoff, s) && IsRun(backoff, s, events)
    ensures Inv(backoff, Run(backoff, s, events))
    decreases |events|
  {
    if events != [] {
      InvStep(backoff, s, events[0]);
      InvRun(backoff, Step(backoff, s, events[0]), events[1..]);
    }
  }

  /** Session safety and the backoff law, over every run from a fresh session. */
  lemma SafeRun(backoff: Backoff, events: seq<Event>)
    requires IsRun(backoff, NEW_SESSION, events)
    ensures var s := Run(backoff, NEW_SESSION, events);
            && Safe(s)
            && (forall k | k in s.loops :: BackoffLaw(backoff, s.loops[k]))
            && (s.op.Idle? && s.state != RECONNECTING ==>
                  forall t: nat | t < s.made :: t in s.closed || s.transport == Some(t))
  {
    assert Inv(backoff, NEW_SESSION);
    InvRun(backoff, NEW_SESSION, events);
    var s := Run(backoff, NEW_SESSION, events);
    forall k | k in s.loops ensures BackoffLaw(backoff, s.loops[k]) {
      assert LoopOk(backoff, s, k);
    }
  }

  /** A loop that ends on its own leaves the session connected or given up, never reconnecting. */
  lemma LoopEndsSettled(backoff: Backoff, s: Session, e: Event, k: nat)
    requires Inv(backoff, s) && Enabled(s, e) && Tame(s, e)
    requires k in s.loops && k !in Step(backoff, s, e).loops && !e.LoopCancelled?
    ensures Step(backoff, s, e).state in {CONNECTED, AUTH_REQUIRED, DISCONNECTED}
  {
    assert LoopOk(backoff, s, k);
  }

  // ---------- what a state tells ----------

  /** How the connection attempt that an event ends has ended. */
  function Attempted(e: Event): Option<Started> {
    match e
    case StartResult(r) => Some(Checked(r))
    case ReconnectResult(r) => Some(Checked(r))
    case LoopResult(_, r) => Some(Checked(r))
    case _ => None
  }

  predicate Connects(e: Event) {
    Attempted(e).Some? && Attempted(e).value.Greeted?
  }

  predicate AuthFails(e: Event) {
    Attempted(e) == Some(AuthError) || e == CallReturn(CallAuthError)
  }

  /** A permanent error, a start that failed, or a stop. */
  predicate Disconnects(e: Event) {
    || Attempted(e) == Some(Permanent) || e == CallReturn(Mismatch) || e == CallReturn(CallPermanent)
    || e == StartResult(LinkFailure) || e == StopCall || e == StopResume
  }

  predicate Retries(e: Event) {
    e == ReconnectCall || e == ReconnectResume || e == CallReturn(CallLinkFailure)
  }

  /** Events that decide the state; a stop or a reconnect_now that first waits for a cancelled loop
      decides when it resumes, and a link failure only once, and not after a stop. */
  predicate Decides(s: Session, e: Event) {
    || e == StartCall || Connects(e) || AuthFails(e)
    || (Disconnects(e) && (e == StopCall ==> !Live(s)))
    || (Retries(e) && (e == ReconnectCall ==> !s.stopped && !Live(s))
                   && (e == CallReturn(CallLinkFailure) ==> !s.stopped && s.state != RECONNECTING))
  }

  /** The last event of a run that decided the state. */
  ghost function LastDecision(backoff: Backoff, s: Session, events: seq<Event>): Option<Event>
    requires IsRun(backoff, s, events)
    decreases |events|
  {
    if events == [] then None
    else
      var later := LastDecision(backoff, Step(backoff, s, events[0]), events[1..]);
      if later.None? && Decides(s, events[0]) then Some(events[0]) else later
  }

  ghost predicate Says(state: ConnectionState, e: Event) {
    && (state == CONNECTING <==> e == StartCall)
    && (state == CONNECTED <==> Connects(e))
    && (state == AUTH_REQUIRED <==> AuthFails(e))
    && (state == DISCONNECTED <==> Disconnects(e))
    && (state == RECONNECTING <==> Retries(e))
  }

  lemma AttemptDecides(backoff: Backoff, s: Session, e: Event)
    requires Enabled(s, e) && Attempted(e).Some?
    ensures var t := Step(backoff, s, e);
            if Decides(s, e) then Says(t.state, e) else t.state == s.state
  {
  }

  lemma DecisionStep(backoff: Backoff, s: Session, e: Event)
    requires Enabled(s, e)
    ensures var t := Step(backoff, s, e);
            if Decides(s, e) then Says(t.state, e) else t.state == s.state
  {
    if Attempted(e).Some? {
      AttemptDecides(backoff, s, e);
    } else {
      var t := Step(backoff, s, e);
      assert !Connects(e);
    }
  }

  lemma {:induction false} DecisionRun(backoff: Backoff, s: Session, events: seq<Event>)
    requires IsRun(backoff, s, events)
    ensures var state := Run(backoff, s, events).state;
            match LastDecision(backoff, s, events)
            case None => state == s.state
            case Some(e) => Says(state, e)
    decreases |events|
  {
    if events != [] {
      DecisionStep(backoff, s, events[0]);
      DecisionRun(backoff, Step(backoff, s, events[0]), events[1..]);
    }
  }

  /** In every run a state tells its cause: AUTH_REQUIRED iff the last decision was an authentication
      failure, CONNECTED iff it was a trusted handshake, DISCONNECTED iff it was a permanent error, a
      failed start or a stop, or there was none, RECONNECTING iff it was a lost link or the user's
      retry, CONNECTING iff it was the start. */
  lemma StateSaysWhy(backoff: Backoff, events: seq<Event>)
    requires IsRun(backoff, NEW_SESSION, events)
    ensures var state := Run(backoff, NEW_SESSION, events).state;
            match LastDecision(backoff, NEW_SESSION, events)
            case None => state == DISCONNECTED
            case Some(e) => Says(state, e)
  {
    DecisionRun(backoff, NEW_SESSION, events);
  }

  // ---------- where the assumptions are needed ----------

  /** Whatever tame events follow, the session stays safe. */
  ghost predicate SafeForever(backoff: Backoff, s: Session) {
    forall events | IsRun(backoff, s, events) :: Safe(Run(backoff, s, events))
  }

  lemma InvSafeForever(backoff: Backoff, s: Session)
    requires Inv(backoff, s)
    ensures SafeForever(backoff, s)
  {
    forall events | IsRun(backoff, s, events) ensures Safe(Run(backoff, s, events)) {
      InvRun(backoff, s, events);
    }
  }

  lemma UnsafeNow(backoff: Backoff, s: Session)
    requires !Safe(s)
    ensures !SafeForever(backoff, s)
  {
    assert IsRun(backoff, s, []) && Run(backoff, s, []) == s;
  }

  lemma UnsafeNext(backoff: Backoff, s: Session, e: Event)
    requires Enabled(s, e) && Tame(s, e) && !SafeForever(backoff, Step(backoff, s, e))
    ensures !SafeForever(backoff, s)
  {
    var t := Step(backoff, s, e);
    var events :| IsRun(backoff, t, events) && !Safe(Run(backoff, t, events));
    var longer := [e] + events;
    assert longer[1..] == events;
    assert IsRun(backoff, s, longer) && Run(backoff, s, longer) == Run(backoff, t, events);
  }

  const TRUSTED_HELLO := Handshake(PROTOCOL_VERSION, "", "", true)

  /** A loop beside an attempt that then connects is left running. */
  lemma ConnectsBesideLoop(backoff: Backoff, s: Session, e: Event, k: nat)
    requires e == StartResult(Greeted(TRUSTED_HELLO)) || e == ReconnectResult(Greeted(TRUSTED_HELLO))
    requires Enabled(s, e) && k in s.loops
    ensures !SafeForever(backoff, s)
  {
    var t := Step(backoff, s, e);
    assert k in t.loops && t.state == CONNECTED;
    UnsafeNow(backoff, t);
    UnsafeNext(backoff, s, e);
  }

  /** reconnect_now starts its loop whatever state it finds. */
  lemma RetryAfterEnd(backoff: Backoff, s: Session)
    requires s.op.Retrying? && s.state in {DISCONNECTED, AUTH_REQUIRED}
    ensures !SafeForever(backoff, s)
  {
    var t := Step(backoff, s, ReconnectResult(LinkFailure));
    assert s.loopsMade in t.loops;
    UnsafeNow(backoff, t);
    UnsafeNext(backoff, s, ReconnectResult(LinkFailure));
  }

  lemma CancelAfterEnd(backoff: Backoff, s: Session)
    requires s.op.Cancelling? && NoLoop(s) && s.op.loop < s.loopsMade && s.calls > 0
    requires !s.stopped && s.state in {DISCONNECTED, AUTH_REQUIRED}
    ensures !SafeForever(backoff, s)
  {
    var t := Step(backoff, s, CallReturn(CallLinkFailure));
    assert s.loopsMade in t.loops && s.op.loop !in t.loops;
    ConnectsBesideLoop(backoff, Step(backoff, t, ReconnectResume),
                       ReconnectResult(Greeted(TRUSTED_HELLO)), s.loopsMade);
    UnsafeNext(backoff, t, ReconnectResume);
    UnsafeNext(backoff, s, CallReturn(CallLinkFailure));
  }

  lemma StartsBesideCall(backoff: Backoff, s: Session)
    requires s.op.Starting? && s.state == CONNECTING && !s.stopped && s.calls > 0
    ensures !SafeForever(backoff, s)
  {
    var t := Step(backoff, s, CallReturn(CallLinkFailure));
    ConnectsBesideLoop(backoff, t, StartResult(Greeted(TRUSTED_HELLO)), s.loopsMade);
    UnsafeNext(backoff, s, CallReturn(CallLinkFailure));
  }

  lemma StartsBesideTransport(backoff: Backoff, s: Session, x: nat)
    requires s.op.Starting? && NoLoop(s) && s.transport == Some(x) && x < s.made && x !in s.closed
    requires s.op.transport != x
    ensures !SafeForever(backoff, s)
  {
    var t := Step(backoff, s, StartResult(Greeted(TRUSTED_HELLO)));
    assert x < t.made && x !in t.closed && t.transport != Some(x) && !InStart(t, x);
    UnsafeNow(backoff, t);
    UnsafeNext(backoff, s, StartResult(Greeted(TRUSTED_HELLO)));
  }

  lemma HasLoop(s: Session)
    ensures NoLoop(s) || exists k :: k in s.loops
  {
  }

  /** A request that ends the session keeps it safe exactly when it returns beside no reconnect loop
      and outside a start or a reconnect_now, or into one that has not begun its attempt when it is
      the last request in flight. */
  lemma PermanentReturnSafeIff(backoff: Backoff, s: Session, reply: Replied)
    requires Inv(backoff, s) && s.calls > 0 && EndsSession(reply)
    ensures SafeForever(backoff, Step(backoff, s, CallReturn(reply))) <==> NoLoop(s) && MayEnd(s)
  {
    var e := CallReturn(reply);
    var t := Step(backoff, s, e);
    HasLoop(s);
    if NoLoop(s) && MayEnd(s) {
      InvStep(backoff, s, e);
      InvSafeForever(backoff, t);
    } else if !NoLoop(s) {
      assert t.loops == s.loops;
      UnsafeNow(backoff, t);
    } else if s.op.Retrying? {
      RetryAfterEnd(backoff, t);
    } else {
      CancelAfterEnd(backoff, t);
    }
  }

  /** Starting an idle session keeps it safe exactly when it has no loop, no transport and no request
      in flight: a loop or transport it has is lost, and a request left from before may start a loop
      beside the attempt. */
  lemma StartSafeIff(backoff: Backoff, s: Session)
    requires Inv(backoff, s) && s.op.Idle?
    ensures SafeForever(backoff, Step(backoff, s, StartCall))
       <==> NoLoop(s) && s.transport.None? && s.calls == 0
  {
    var t := Step(backoff, s, StartCall);
    HasLoop(s);
    if NoLoop(s) && s.transport.None? && s.calls == 0 {
      InvStep(backoff, s, StartCall);
      InvSafeForever(backoff, t);
    } else if !NoLoop(s) {
      assert t.loops == s.loops;
      UnsafeNow(backoff, t);
    } else if s.transport.Some? {
      StartsBesideTransport(backoff, t, s.transport.value);
    } else {
      StartsBesideCall(backoff, t);
    }
  }

  /** In the immediate: a second start that connects loses the transport there was. */
  lemma StartTwiceSafeIff(backoff: Backoff, s: Session, h: Handshake)
    requires Inv(backoff, s) && s.op.Idle? && NoLoop(s) && Trusted(h)
    ensures var t := Step(backoff, Step(backoff, s, StartCall), StartResult(Greeted(h)));
            Safe(t) <==> s.transport.None?
  {
  }

  /** The caller's assumptions are the weakest: from a state of a tame run, an event keeps every tame
      continuation safe if and only if it is tame itself. */
  lemma TameExact(backoff: Backoff, s: Session, e: Event)
    requires Inv(backoff, s) && Enabled(s, e)
    ensures SafeForever(backoff, Step(backoff, s, e)) <==> Tame(s, e)
  {
    if Tame(s, e) {
      InvStep(backoff, s, e);
      InvSafeForever(backoff, Step(backoff, s, e));
    } else if e.StartCall? {
      StartSafeIff(backoff, s);
    } else {
      PermanentReturnSafeIff(backoff, s, e.reply);
    }
  }

  ghost predicate GaveUp(s: Session) {
    (s.state == DISCONNECTED || s.state == AUTH_REQUIRED) && s.op.Idle? && NoLoop(s)
  }

  predicate Unprompted(events: seq<Event>) {
    forall i | 0 <= i < |events| :: !events[i].StartCall? && !events[i].ReconnectCall?
  }

  /** A session that gave up with no request in flight stays given up, and makes no transport,
      until the user starts or reconnects it. */
  lemma {:induction false} GivenUpStays(backoff: Backoff, s: Session, events: seq<Event>)
    requires Inv(backoff, s) && GaveUp(s) && s.calls == 0
    requires IsRun(backoff, s, events) && Unprompted(events)
    ensures var t := Run(backoff, s, events);
            GaveUp(t) && t.calls == 0 && t.made == s.made
    decreases |events|
  {
    if events != [] {
      var t := Step(backoff, s, events[0]);
      InvStep(backoff, s, events[0]);
      assert forall i | 0 <= i < |events[1..]| :: events[1..][i] == events[i + 1];
      GivenUpStays(backoff, t, events[1..]);
    }
  }

  /** stop() is final: whatever requests are still in flight and however they end, and whatever
      reconnects the user asks for, nothing is connected, retried or made until start() is called. */
  lemma {:induction false} StoppedStays(backoff: Backoff, s: Session, events: seq<Event>)
    requires Inv(backoff, s) && s.stopped && s.op.Idle?
    requires IsRun(backoff, s, events) && forall i | 0 <= i < |events| :: !events[i].StartCall?
    ensures var t := Run(backoff, s, events);
            t.stopped && GaveUp(t) && t.transport.None? && t.made == s.made
    decreases |events|
  {
    if events != [] {
      InvStep(backoff, s, events[0]);
      assert forall i | 0 <= i < |events[1..]| :: events[1..][i] == events[i + 1];
      StoppedStays(backoff, Step(backoff, s, events[0]), events[1..]);
    }
  }

  /** With a request still in flight that is not so: closing its transport fails it, and that
      failure restarts the retries, exactly when the session was not stopped. */
  lemma GivenUpUndone(backoff: Backoff, s: Session)
    requires Inv(backoff, s) && GaveUp(s) && s.calls > 0
    ensures var t := Step(backoff, s, CallReturn(CallLinkFailure));
            GaveUp(t) <==> s.stopped
    ensures !s.stopped ==>
              var t := Step(backoff, s, CallReturn(CallLinkFailure));
              t.state == RECONNECTING && s.loopsMade in t.loops
  {
  }

  /** So a session that gave up stays so, until the user acts, exactly when no request was in flight
      or it was stopped. */
  lemma GivenUpForeverIff(backoff: Backoff, s: Session)
    requires Inv(backoff, s) && GaveUp(s)
    ensures (forall events | IsRun(backoff, s, events) && Unprompted(events) ::
               GaveUp(Run(backoff, s, events)))
       <==> s.calls == 0 || s.stopped
  {
    if s.calls == 0 || s.stopped {
      forall events | IsRun(backoff, s, events) && Unprompted(events)
        ensures GaveUp(Run(backoff, s, events))
      {
        if s.calls == 0 {
          GivenUpStays(backoff, s, events);
        } else {
          StoppedStays(backoff, s, events);
        }
      }
    } else {
      var events := [CallReturn(CallLinkFailure)];
      GivenUpUndone(backoff, s);
      assert events == [] + events;
      RunSnoc(backoff, s, [], events[0]);
      assert IsRun(backoff, s, events) && Unprompted(events) && !GaveUp(Run(backoff, s, events));
    }
  }

  /** Connected, with two requests in flight. */
  function TwoCalls(h: Handshake): seq<Event> {
    [StartCall, StartResult(Greeted(h)), CallBegin, CallBegin]
  }

  lemma {:induction false} RunSnoc(backoff: Backoff, s: Session, events: seq<Event>, e: Event)
    requires IsRun(backoff, s, events)
    requires Enabled(Run(backoff, s, events), e) && Tame(Run(backoff, s, events), e)
    ensures IsRun(backoff, s, events + [e])
    ensures Run(backoff, s, events + [e]) == Step(backoff, Run(backoff, s, events), e)
    decreases |events|
  {
    if events == [] {
      assert [e][1..] == [];
      assert events + [e] == [e];
    } else {
      assert (events + [e])[1..] == events[1..] + [e];
      RunSnoc(backoff, Step(backoff, s, events[0]), events[1..], e);
    }
  }

  lemma TwoCallsRun(backoff: Backoff, h: Handshake)
    requires Trusted(h)
    ensures IsRun(backoff, NEW_SESSION, TwoCalls(h))
    ensures var s := Run(backoff, NEW_SESSION, TwoCalls(h));
            s.state == CONNECTED && s.transport == Some(0) && s.calls == 2 && s.op.Idle?
            && s.loops == map[] && !s.stopped && s.closed == {} && s.made == 1
  {
    var one, two, three := [StartCall], [StartCall, StartResult(Greeted(h))],
                           [StartCall, StartResult(Greeted(h)), CallBegin];
    assert one == [] + [StartCall] && two == one + [StartResult(Greeted(h))];
    assert three == two + [CallBegin] && TwoCalls(h) == three + [CallBegin];
    RunSnoc(backoff, NEW_SESSION, [], StartCall);
    RunSnoc(backoff, NEW_SESSION, one, StartResult(Greeted(h)));
    RunSnoc(backoff, NEW_SESSION, two, CallBegin);
    RunSnoc(backoff, NEW_SESSION, three, CallBegin);
  }

  /** Two requests in flight are enough, from a fresh session. One is told to give up and the other's
      link failure restarts the retries; ... */
  lemma GivenUpUndoneReached(backoff: Backoff, h: Handshake)
    requires Trusted(h)
    ensures IsRun(backoff, NEW_SESSION, TwoCalls(h) + [CallReturn(CallPermanent)])
    ensures var s := Run(backoff, NEW_SESSION, TwoCalls(h) + [CallReturn(CallPermanent)]);
            GaveUp(s) && s.calls > 0 && !GaveUp(Step(backoff, s, CallReturn(CallLinkFailure)))
  {
    TwoCallsRun(backoff, h);
    RunSnoc(backoff, NEW_SESSION, TwoCalls(h), CallReturn(CallPermanent));
    InvRun(backoff, NEW_SESSION, TwoCalls(h) + [CallReturn(CallPermanent)]);
    GivenUpUndone(backoff, Run(backoff, NEW_SESSION, TwoCalls(h) + [CallReturn(CallPermanent)]));
  }

  /** Or the link failure comes first and then one is told to give up; ... */
  lemma EndsBesideLoopReached(backoff: Backoff, h: Handshake)
    requires Trusted(h)
    ensures var events := TwoCalls(h) + [CallReturn(CallLinkFailure)];
            IsRun(backoff, NEW_SESSION, events)
            && var s := Run(backoff, NEW_SESSION, events);
               s.calls > 0 && !Safe(Step(backoff, s, CallReturn(CallAuthError)))
  {
    TwoCallsRun(backoff, h);
    RunSnoc(backoff, NEW_SESSION, TwoCalls(h), CallReturn(CallLinkFailure));
    var lost := Run(backoff, NEW_SESSION, TwoCalls(h) + [CallReturn(CallLinkFailure)]);
    assert lost.task.value in Step(backoff, lost, CallReturn(CallAuthError)).loops;
  }

  /** ... or the user reconnects and then one is told to give up; ... */
  lemma EndsBesideRetryReached(backoff: Backoff, h: Handshake)
    requires Trusted(h)
    ensures var events := TwoCalls(h) + [ReconnectCall];
            IsRun(backoff, NEW_SESSION, events)
            && var s := Run(backoff, NEW_SESSION, events);
               s.calls > 0 && NoLoop(s) && s.op.Retrying?
               && Safe(Step(backoff, s, CallReturn(Mismatch)))
               && !SafeForever(backoff, Step(backoff, s, CallReturn(Mismatch)))
  {
    var events := TwoCalls(h) + [ReconnectCall];
    TwoCallsRun(backoff, h);
    RunSnoc(backoff, NEW_SESSION, TwoCalls(h), ReconnectCall);
    InvRun(backoff, NEW_SESSION, events);
    var s := Run(backoff, NEW_SESSION, events);
    OwnedStays(s, Step(backoff, s, CallReturn(Mismatch)));
    PermanentReturnSafeIff(backoff, s, Mismatch);
  }

  /** ... or the user stops and starts again before they have returned. */
  lemma StartsBesideCallReached(backoff: Backoff, h: Handshake)
    requires Trusted(h)
    ensures var events := TwoCalls(h) + [StopCall];
            IsRun(backoff, NEW_SESSION, events)
            && var s := Run(backoff, NEW_SESSION, events);
               s.op.Idle? && NoLoop(s) && s.transport.None?
               && !SafeForever(backoff, Step(backoff, s, StartCall))
  {
    var events := TwoCalls(h) + [StopCall];
    TwoCallsRun(backoff, h);
    RunSnoc(backoff, NEW_SESSION, TwoCalls(h), StopCall);
    InvRun(backoff, NEW_SESSION, events);
    StartSafeIff(backoff, Run(backoff, NEW_SESSION, events));
  }

  // ---------- the class ----------

  class ClientSession {
    const backoff: Backoff
    var state: ConnectionState
    var transport: Option<nat>
    var handshake: Option<Handshake>
    var stopped: bool
    var task: Option<nat>
    var loops: map<nat, Loop>
    var loopsMade: nat
    var op: Op
    var calls: nat
    var made: nat
    var closed: set<nat>

    ghost function View(): Session
      reads this
    {
      Session(state, transport, handshake, stopped, task, loops, loopsMade, op, calls, made, closed)
    }

    constructor (backoff: Backoff)
      ensures this.backoff == backoff && View() == NEW_SESSION
    {
      this.backoff := backoff;
      state, transport, handshake, stopped, task := DISCONNECTED, None, None, false, None;
      loops, loopsMade, op, calls, made, closed := map[], 0, Idle, 0, 0, {};
    }

    /** _close_transport. */
    method CloseCurrent()
      modifies this`transport, this`closed
      ensures View() == CloseTransport(old(View()))
    {
      if transport.Some? {
        transport, closed := None, closed + {transport.value};
      }
    }

    /** A new reconnect loop is scheduled. */
    method StartLoop()
      modifies this`task, this`loops, this`loopsMade
      ensures View() == CreateLoop(old(View()))
    {
      task, loops := Some(loopsMade), loops[loopsMade := Loop(Created, 0, [], 0)];
      loopsMade := loopsMade + 1;
    }

    /** _connect once transport.start() has ended; false when it raises. */
    method Connect(t: nat, r: Started) returns (ok: bool)
      modifies this`transport, this`handshake, this`state, this`closed
      ensures ok <==> Checked(r).Greeted?
      ensures View() == if ok then Settle(old(View()), t, r)
                        else old(View()).(closed := old(closed) + {t})
    {
      if r.Greeted? && Trusted(r.h) {
        transport, handshake, state := Some(t), Some(r.h), CONNECTED;
        return true;
      }
      closed := closed + {t};
      return false;
    }

    /** _try_connect: true when connected or when retrying must stop. */
    method TryConnect(t: nat, r: Started) returns (done: bool)
      modifies this`transport, this`handshake, this`state, this`closed
      ensures View() == Settle(old(View()), t, r) && (done <==> !Checked(r).LinkFailure?)
    {
      var ok := Connect(t, r);
      if ok {
        return true;
      }
      match r {
        case AuthError => state := AUTH_REQUIRED; return true;
        case LinkFailure => return false;
        case _ => state := DISCONNECTED; return true;   // BootstrapRequired or VersionMismatch
      }
    }

    method Start()
      requires Enabled(View(), StartCall)
      modifies this
      ensures View() == Step(backoff, old(View()), StartCall)
    {
      stopped, state := false, CONNECTING;
      op, made := Starting(made), made + 1;
    }

    method FinishStart(r: Started) returns (raised: bool)
      requires Enabled(View(), StartResult(r))
      modifies this
      ensures View() == Step(backoff, old(View()), StartResult(r))
      ensures raised <==> state != CONNECTED
    {
      var ok := Connect(op.transport, r);
      op := Idle;
      if !ok {
        state := if r.AuthError? then AUTH_REQUIRED else DISCONNECTED;
      }
      return !ok;
    }

    method Stop()
      requires Enabled(View(), StopCall)
      modifies this
      ensures View() == Step(backoff, old(View()), StopCall)
    {
      stopped := true;
      var current := task;
      task := None;
      if current.Some? && current.value in loops {
        op := Stopping(current.value);
        return;
      }
      FinishStop();
    }

    /** stop() after the cancelled loop has ended. */
    method FinishStop()
      modifies this
      ensures View() == Stopped(old(View()))
    {
      CloseCurrent();
      state, op := DISCONNECTED, Idle;
    }

    method ReconnectNow()
      requires Enabled(View(), ReconnectCall)
      modifies this
      ensures View() == Step(backoff, old(View()), ReconnectCall)
    {
      if stopped {
        return;
      }
      var current := task;
      task := None;
      if current.Some? && current.value in loops {
        op := Cancelling(current.value);
        return;
      }
      BeginRetry();
    }

    /** reconnect_now() up to the attempt. */
    method BeginRetry()
      modifies this
      ensures View() == Retry(old(View()))
    {
      CloseCurrent();
      state := RECONNECTING;
      op, made := Retrying(made), made + 1;
    }

    /** The answer is whether the session is connected. */
    method FinishRetry(r: Started) returns (connected: bool)
      requires Enabled(View(), ReconnectResult(r))
      modifies this
      ensures View() == Step(backoff, old(View()), ReconnectResult(r))
      ensures connected <==> state == CONNECTED
    {
      var done := TryConnect(op.transport, r);
      op := Idle;
      if !done {
        StartLoop();
      }
      return state == CONNECTED;
    }

    /** The head of the reconnect loop's while: stop, or sleep the next delay. */
    method LoopHead(k: nat, loop: Loop)
      modifies this`loops
      ensures View() == NextSleep(backoff, old(View()), k, loop)
    {
      if stopped {
        loops := loops - {k};
      } else {
        var delay := Delay(backoff, loop.attempt);
        loops := loops[k := loop.(phase := Sleeping, sleeps := loop.sleeps + [delay])];
      }
    }

    method BeginLoop(k: nat)
      requires Enabled(View(), LoopBegin(k))
      modifies this
      ensures View() == Step(backoff, old(View()), LoopBegin(k))
    {
      CloseCurrent();
      LoopHead(k, loops[k]);
    }

    method Wake(k: nat)
      requires Enabled(View(), LoopWake(k))
      modifies this
      ensures View() == Step(backoff, old(View()), LoopWake(k))
    {
      if stopped {
        loops := loops - {k};
        return;
      }
      var loop := loops[k];
      loops := loops[k := loop.(phase := Attempting(made), tries := loop.tries + 1)];
      made := made + 1;
    }

    method FinishAttempt(k: nat, r: Started)
      requires Enabled(View(), LoopResult(k, r))
      modifies this
      ensures View() == Step(backoff, old(View()), LoopResult(k, r))
    {
      var loop := loops[k];
      var done := TryConnect(loop.phase.transport, r);
      if done {
        loops := loops - {k};
      } else {
        LoopHead(k, loop.(attempt := loop.attempt + 1));
      }
    }

    /** _call up to the request; refused unless connected. */
    method BeginCall() returns (refused: bool)
      modifies this
      ensures View() == Step(backoff, old(View()), CallBegin)
      ensures refused <==> old(state) != CONNECTED || old(transport).None?
    {
      if state != CONNECTED || transport.None? {
        return true;
      }
      calls := calls + 1;
      return false;
    }

    /** _call after the request, with _fail_permanently and _on_transport_failure. */
    method FinishCall(reply: Replied)
      requires Enabled(View(), CallReturn(reply))
      modifies this
      ensures View() == Step(backoff, old(View()), CallReturn(reply))
    {
      calls := calls - 1;
      match reply {
        case Fine =>
        case OtherAgentError =>
        case CallAuthError =>
          CloseCurrent();
          state := AUTH_REQUIRED;
        case CallLinkFailure =>
          if stopped || state == RECONNECTING {
            return;
          }
          state := RECONNECTING;
          StartLoop();
        case _ =>   // a version mismatch, or the transport says bootstrap is needed
          CloseCurrent();
          state := DISCONNECTED;
      }
    }
  }
}
