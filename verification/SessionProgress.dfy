/**
 What the session's operations and its loop do when they run to their ends: a stop is final, a start
 or a retry ends as its attempt did, and an idle session that is reconnecting goes on trying.
 */
module SessionProgress {
  import opened Wrappers
  import opened Agent
  import opened Session

  lemma RunCons(backoff: Backoff, s: Session, e: Event, rest: seq<Event>)
    requires Enabled(s, e) && Tame(s, e) && IsRun(backoff, Step(backoff, s, e), rest)
    ensures IsRun(backoff, s, [e] + rest)
    ensures Run(backoff, s, [e] + rest) == Run(backoff, Step(backoff, s, e), rest)
  {
    assert ([e] + rest)[1..] == rest;
  }

  lemma RunOne(backoff: Backoff, s: Session, e: Event)
    requires Enabled(s, e) && Tame(s, e)
    ensures IsRun(backoff, s, [e]) && Run(backoff, s, [e]) == Step(backoff, s, e)
  {
    assert [e][1..] == [];
  }

  // ---------- stop ----------

  ghost predicate Ending(s: Session) {
    s.stopped && (s.op.Idle? || s.op.Stopping?)
  }

  lemma EndingStep(backoff: Backoff, s: Session, e: Event)
    requires Inv(backoff, s) && Ending(s) && Enabled(s, e) && Tame(s, e) && !e.StartCall?
    ensures var t := Step(backoff, s, e); Inv(backoff, t) && Ending(t) && t.made == s.made
  {
    InvStep(backoff, s, e);
    if e.LoopBegin? || e.LoopWake? || e.LoopResult? {
      assert LoopOk(backoff, s, e.loop);
    }
  }

  lemma {:induction false} EndingRun(backoff: Backoff, s: Session, events: seq<Event>)
    requires Inv(backoff, s) && Ending(s) && IsRun(backoff, s, events)
    requires forall i | 0 <= i < |events| :: !events[i].StartCall?
    ensures var t := Run(backoff, s, events); Inv(backoff, t) && Ending(t) && t.made == s.made
    decreases |events|
  {
    if events != [] {
      EndingStep(backoff, s, events[0]);
      assert forall i | 0 <= i < |events[1..]| :: events[1..][i] == events[i + 1];
      EndingRun(backoff, Step(backoff, s, events[0]), events[1..]);
    }
  }

  /** Whatever happens after a stop, with requests in flight or a loop alive, and until a start: once
      no operation is under way the session has given up, holds nothing, and has made nothing since. */
  lemma StopHolds(backoff: Backoff, s: Session, events: seq<Event>)
    requires Inv(backoff, s) && s.op.Idle? && IsRun(backoff, s, [StopCall] + events)
    requires forall i | 0 <= i < |events| :: !events[i].StartCall?
    ensures var t := Run(backoff, s, [StopCall] + events);
            && t.made == s.made
            && (t.op.Idle? ==> GaveUp(t) && t.transport.None? && NoLoop(t))
  {
    var stopped := Step(backoff, s, StopCall);
    assert ([StopCall] + events)[1..] == events;
    InvStep(backoff, s, StopCall);
    EndingRun(backoff, stopped, events);
  }

  /** The rest of a stop: the cancelled loop ends, and stop() resumes. */
  function StopMoves(s: Session): seq<Event> {
    [StopCall] + if Live(s) then [LoopCancelled(s.task.value)] + [StopResume] else []
  }

  /** A stop does run to its end, and leaves the session disconnected. */
  lemma StopCompletes(backoff: Backoff, s: Session)
    requires Inv(backoff, s) && s.op.Idle?
    ensures IsRun(backoff, s, StopMoves(s))
    ensures var t := Run(backoff, s, StopMoves(s));
            t.op.Idle? && t.state == DISCONNECTED && t.transport.None? && NoLoop(t)
            && t.made == s.made && t.calls == s.calls
  {
    var stopped := Step(backoff, s, StopCall);
    InvStep(backoff, s, StopCall);
    if Live(s) {
      var k := s.task.value;
      var ended := Step(backoff, stopped, LoopCancelled(k));
      InvStep(backoff, stopped, LoopCancelled(k));
      InvStep(backoff, ended, StopResume);
      RunOne(backoff, ended, StopResume);
      RunCons(backoff, stopped, LoopCancelled(k), [StopResume]);
      RunCons(backoff, s, StopCall, [LoopCancelled(k)] + [StopResume]);
    } else {
      RunOne(backoff, s, StopCall);
      assert [StopCall] + [] == [StopCall];
    }
  }

  // ---------- start ----------

  /** How an attempt on transport x leaves the session: the transport and its own handshake adopted,
      or the transport closed, in the state that the error calls for. */
  ghost predicate EndsAs(t: Session, x: nat, r: Started, lost: ConnectionState) {
    match r
    case Greeted(h) =>
      if h.protocolVersion == PROTOCOL_VERSION && VersionsCompatible(h.builtVersion, h.runningVersion)
      then t.state == CONNECTED && t.transport == Some(x) && t.handshake == Some(h)
      else t.state == DISCONNECTED && t.transport.None? && x in t.closed
    case AuthError => t.state == AUTH_REQUIRED && t.transport.None? && x in t.closed
    case Permanent => t.state == DISCONNECTED && t.transport.None? && x in t.closed
    case LinkFailure => t.state == lost && t.transport.None? && x in t.closed
  }

  lemma StartCompletes(backoff: Backoff, s: Session, r: Started)
    requires Inv(backoff, s) && s.op.Idle? && Tame(s, StartCall)
    ensures IsRun(backoff, s, [StartCall] + [StartResult(r)])
    ensures var t := Run(backoff, s, [StartCall] + [StartResult(r)]);
            t.op.Idle? && !t.stopped && NoLoop(t) && t.made == s.made + 1
            && EndsAs(t, s.made, r, DISCONNECTED)
  {
    var started := Step(backoff, s, StartCall);
    InvStep(backoff, s, StartCall);
    InvStep(backoff, started, StartResult(r));
    RunOne(backoff, started, StartResult(r));
    RunCons(backoff, s, StartCall, [StartResult(r)]);
  }

  // ---------- reconnect_now ----------

  function RetryMoves(s: Session): seq<Event> {
    [ReconnectCall] + if Live(s) then [LoopCancelled(s.task.value)] + [ReconnectResume] else []
  }

  ghost predicate AtAttempt(backoff: Backoff, s: Session, t: Session) {
    && Inv(backoff, t) && NoLoop(t) && t.transport.None? && t.state == RECONNECTING && !t.stopped
    && t.op.Retrying? && t.op.transport >= s.made && t.made == t.op.transport + 1
    && (s.transport.Some? ==> s.transport.value in t.closed)
  }

  lemma RetryCancels(backoff: Backoff, s: Session, k: nat)
    requires Inv(backoff, s) && s.op.Idle? && !s.stopped && Live(s) && s.task == Some(k)
    ensures var called := Step(backoff, s, ReconnectCall);
            && Enabled(called, LoopCancelled(k)) && Tame(called, LoopCancelled(k))
            && var ended := Step(backoff, called, LoopCancelled(k));
               && Enabled(ended, ReconnectResume) && Tame(ended, ReconnectResume)
               && AtAttempt(backoff, s, Step(backoff, ended, ReconnectResume))
  {
    var called := Step(backoff, s, ReconnectCall);
    var ended := Step(backoff, called, LoopCancelled(k));
    InvStep(backoff, s, ReconnectCall);
    InvStep(backoff, called, LoopCancelled(k));
    InvStep(backoff, ended, ReconnectResume);
  }

  /** reconnect_now reaches its attempt: the loop is gone, and what was held is closed. */
  lemma RetryBegins(backoff: Backoff, s: Session)
    requires Inv(backoff, s) && s.op.Idle? && !s.stopped
    ensures IsRun(backoff, s, RetryMoves(s))
    ensures AtAttempt(backoff, s, Run(backoff, s, RetryMoves(s)))
  {
    var called := Step(backoff, s, ReconnectCall);
    if Live(s) {
      var k := s.task.value;
      var ended := Step(backoff, called, LoopCancelled(k));
      RetryCancels(backoff, s, k);
      RunOne(backoff, ended, ReconnectResume);
      RunCons(backoff, called, LoopCancelled(k), [ReconnectResume]);
      RunCons(backoff, s, ReconnectCall, [LoopCancelled(k)] + [ReconnectResume]);
    } else {
      InvStep(backoff, s, ReconnectCall);
      RunOne(backoff, s, ReconnectCall);
      assert [ReconnectCall] + [] == [ReconnectCall];
    }
  }

  /** And ends as its attempt did; a link failure leaves a new loop that has not slept yet. */
  lemma RetryCompletes(backoff: Backoff, s: Session, r: Started)
    requires Inv(backoff, s) && s.op.Retrying?
    ensures var t := Step(backoff, s, ReconnectResult(r));
            && Inv(backoff, t) && t.op.Idle? && t.made == s.made
            && EndsAs(t, s.op.transport, r, RECONNECTING)
            && (r.LinkFailure? ==> Live(t) && t.loops[t.task.value] == Loop(Created, 0, [], 0))
            && (!r.LinkFailure? ==> NoLoop(t))
  {
    InvStep(backoff, s, ReconnectResult(r));
  }

  /** On a stopped session it does nothing. */
  lemma RetryRefused(backoff: Backoff, s: Session)
    requires s.op.Idle? && s.stopped
    ensures Step(backoff, s, ReconnectCall) == s
  {
  }

  // ---------- the loop ----------

  ghost predicate KeepsTrying(s: Session) {
    s.op.Idle? && s.state == RECONNECTING ==> Live(s) && !s.stopped
  }

  lemma KeepsTryingStep(backoff: Backoff, s: Session, e: Event)
    requires Inv(backoff, s) && KeepsTrying(s) && Enabled(s, e) && Tame(s, e)
    ensures KeepsTrying(Step(backoff, s, e))
  {
    InvStep(backoff, s, e);
    if e.LoopBegin? || e.LoopWake? || e.LoopResult? || e.LoopCancelled? {
      assert LoopOk(backoff, s, e.loop);
    }
  }

  lemma {:induction false} KeepsTryingRun(backoff: Backoff, s: Session, events: seq<Event>)
    requires Inv(backoff, s) && KeepsTrying(s) && IsRun(backoff, s, events)
    ensures KeepsTrying(Run(backoff, s, events)) && Inv(backoff, Run(backoff, s, events))
    decreases |events|
  {
    if events != [] {
      KeepsTryingStep(backoff, s, events[0]);
      InvStep(backoff, s, events[0]);
      KeepsTryingRun(backoff, Step(backoff, s, events[0]), events[1..]);
    }
  }

  /** In every run, an idle session that is reconnecting has a live loop. */
  lemma IdleReconnectingTries(backoff: Backoff, events: seq<Event>)
    requires IsRun(backoff, NEW_SESSION, events)
    ensures var s := Run(backoff, NEW_SESSION, events);
            s.op.Idle? && s.state == RECONNECTING ==> Live(s) && !s.stopped
  {
    KeepsTryingRun(backoff, NEW_SESSION, events);
  }

  /** The loop's own events up to the end of its next attempt. */
  function LoopMoves(s: Session, k: nat, r: Started): seq<Event>
    requires k in s.loops
  {
    match s.loops[k].phase
    case Created => [LoopBegin(k)] + ([LoopWake(k)] + [LoopResult(k, r)])
    case Sleeping => [LoopWake(k)] + [LoopResult(k, r)]
    case Attempting(_) => [LoopResult(k, r)]
  }

  /** The loop sleeps its first delay and drops what the session held. */
  lemma BeginSleeps(backoff: Backoff, s: Session, k: nat)
    requires Inv(backoff, s) && Runs(s, k, LoopBegin(k)) && !s.stopped
    ensures var t := Step(backoff, s, LoopBegin(k));
            && Inv(backoff, t) && Runs(t, k, LoopWake(k)) && t.transport.None?
            && t.loops[k].sleeps == [backoff[0]] && t.loops[k].attempt == 0 && t.made == s.made
            && t.op == s.op && t.state == s.state && t.stopped == s.stopped
            && (s.transport.Some? ==> s.transport.value in t.closed)
  {
    InvStep(backoff, s, LoopBegin(k));
    assert LoopOk(backoff, s, k);
  }

  /** A loop never runs on a stopped session: a stop cancels it first. */
  lemma LoopsRunUnstopped(backoff: Backoff, s: Session, e: Event)
    requires Inv(backoff, s) && Enabled(s, e) && (e.LoopBegin? || e.LoopWake? || e.LoopResult?)
    ensures !s.stopped
  {
    assert LoopOk(backoff, s, e.loop);
  }

  /** A loop that wakes on a session that was not stopped begins an attempt on a transport of its own. */
  lemma WakeAttempts(backoff: Backoff, s: Session, k: nat)
    requires Inv(backoff, s) && Runs(s, k, LoopWake(k))
    ensures var t := Step(backoff, s, LoopWake(k));
            && Inv(backoff, t) && k in t.loops && t.loops[k].phase == Attempting(s.made)
            && t.loops[k].sleeps == s.loops[k].sleeps && t.loops[k].attempt == s.loops[k].attempt
            && t.made == s.made + 1 && t.op == s.op && t.state == s.state && t.stopped == s.stopped
  {
    LoopsRunUnstopped(backoff, s, LoopWake(k));
    InvStep(backoff, s, LoopWake(k));
  }

  /** An attempt that ends as a link failure is followed by the next delay, any other by nothing. */
  lemma AttemptEnds(backoff: Backoff, s: Session, k: nat, r: Started)
    requires Inv(backoff, s) && Enabled(s, LoopResult(k, r)) && !s.stopped
    ensures var t, loop := Step(backoff, s, LoopResult(k, r)), s.loops[k];
            && Inv(backoff, t) && t.op == s.op && t.made == s.made
            && EndsAs(t, loop.phase.transport, r, RECONNECTING)
            && (!r.LinkFailure? ==> NoLoop(t))
            && (r.LinkFailure? ==>
                  var n := loop.attempt + 1;
                  k in t.loops && t.loops[k].phase.Sleeping? && t.loops[k].attempt == n
                  && t.loops[k].sleeps
                     == loop.sleeps + [backoff[if n < |backoff| - 1 then n else |backoff| - 1]])
  {
    InvStep(backoff, s, LoopResult(k, r));
    assert LoopOk(backoff, s, k);
  }

  lemma AttemptFollows(backoff: Backoff, s: Session, k: nat, r: Started)
    requires Inv(backoff, s) && Runs(s, k, LoopWake(k)) && !s.stopped && s.op.Idle?
    ensures IsRun(backoff, s, [LoopWake(k)] + [LoopResult(k, r)])
    ensures var t := Run(backoff, s, [LoopWake(k)] + [LoopResult(k, r)]);
            && Inv(backoff, t) && t.op.Idle? && t.made == s.made + 1
            && EndsAs(t, s.made, r, RECONNECTING)
            && (r.LinkFailure? ==> k in t.loops) && (!r.LinkFailure? ==> NoLoop(t))
  {
    var woken := Step(backoff, s, LoopWake(k));
    WakeAttempts(backoff, s, k);
    AttemptEnds(backoff, woken, k, r);
    RunOne(backoff, woken, LoopResult(k, r));
    RunCons(backoff, s, LoopWake(k), [LoopResult(k, r)]);
  }

  /** So whenever an idle session is reconnecting, its loop's own events end in one more attempt, and
      the session is as that attempt ended: connected, given up, or still trying. */
  lemma LoopTries(backoff: Backoff, s: Session, r: Started)
    requires Inv(backoff, s) && KeepsTrying(s) && s.op.Idle? && s.state == RECONNECTING
    ensures IsRun(backoff, s, LoopMoves(s, s.task.value, r))
    ensures var k := s.task.value;
            var t := Run(backoff, s, LoopMoves(s, k, r));
            && t.op.Idle?
            && (exists x: nat :: x < t.made && EndsAs(t, x, r, RECONNECTING))
            && (r.LinkFailure? ==> k in t.loops) && (!r.LinkFailure? ==> NoLoop(t))
  {
    var k := s.task.value;
    assert LoopOk(backoff, s, k);
    match s.loops[k].phase {
      case Created =>
        var begun := Step(backoff, s, LoopBegin(k));
        BeginSleeps(backoff, s, k);
        AttemptFollows(backoff, begun, k, r);
        RunCons(backoff, s, LoopBegin(k), [LoopWake(k)] + [LoopResult(k, r)]);
      case Sleeping =>
        AttemptFollows(backoff, s, k, r);
      case Attempting(x) =>
        AttemptEnds(backoff, s, k, r);
        RunOne(backoff, s, LoopResult(k, r));
    }
  }

  // ---------- requests ----------

  /** A connected session sends a request, any other refuses it and does not change. */
  lemma CallBegins(backoff: Backoff, s: Session)
    requires Inv(backoff, s)
    ensures var t := Step(backoff, s, CallBegin);
            t == s.(calls := if s.state == CONNECTED then s.calls + 1 else s.calls)
  {
  }

  /** An answer, and an agent's error other than a version mismatch, only end the request. */
  lemma OrdinaryReturn(backoff: Backoff, s: Session, reply: Replied)
    requires s.calls > 0 && (reply.Fine? || reply.OtherAgentError?)
    ensures Step(backoff, s, CallReturn(reply)) == s.(calls := s.calls - 1)
  {
  }

  /** A link failure of a connected session starts a loop, and its transport is then dropped. */
  lemma LinkFailureRetries(backoff: Backoff, s: Session)
    requires Inv(backoff, s) && s.state == CONNECTED && s.op.Idle? && s.calls > 0
    ensures var t := Step(backoff, s, CallReturn(CallLinkFailure));
            && t.state == RECONNECTING && Live(t) && !t.stopped
            && t.loops[t.task.value] == Loop(Created, 0, [], 0) && t.calls == s.calls - 1
  {
    InvStep(backoff, s, CallReturn(CallLinkFailure));
  }
}
