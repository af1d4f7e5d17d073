/**
 The transport, the agent and the two FIFO pipes between them. While the link stays up, a remote
 call answers what the in-process call would.
 */
module Remote {
  import opened Agent
  import opened Transport
  import opened TransportProgress

  /** `asked` is every request written so far; the pipes hold what is still under way. */
  datatype System = System(
    link: Link,
    asked: seq<Request>,
    stdin: seq<Request>,
    served: nat,
    stdout: seq<Response>)

  datatype Move =
    | AskFor(name: string, params: Payload)
    | CallerMove(event: Event)   // a caller drains, times out or resumes
    | Serve                      // the agent handles one line
    | Deliver                    // the reader handles one frame

  /** What a start that read the handshake leaves. */
  const CONNECTED_LINK := Step(Step(NEW_LINK, Spawn), HandshakeRead)
  const NEW_SYSTEM := System(CONNECTED_LINK, [], [], 0, [])

  predicate Can(s: System, m: Move) {
    match m
    case AskFor(_, _) => true
    case CallerMove(e) =>
      (e.Drained? || e.TimerFired? || e.Resumed?) && Enabled(s.link, e)
    case Serve => s.stdin != []
    case Deliver => s.stdout != [] && Enabled(s.link, Received(s.stdout[0]))
  }

  function Do(core: Core, h: Handshake, s: System, m: Move): System
    requires Can(s, m)
  {
    match m
    case AskFor(name, params) =>
      var request := Request(s.link.nextId, name, params);
      s.(link := Step(s.link, Ask), asked := s.asked + [request], stdin := s.stdin + [request])
    case CallerMove(e) => s.(link := Step(s.link, e))
    case Serve =>
      s.(stdin := s.stdin[1..], served := s.served + 1,
         stdout := s.stdout + [Answer(core, h, s.served, s.stdin[0])])
    case Deliver => s.(stdout := s.stdout[1..], link := Step(s.link, Received(s.stdout[0])))
  }

  predicate IsPlay(core: Core, h: Handshake, s: System, moves: seq<Move>)
    decreases |moves|
  {
    moves == [] || (Can(s, moves[0]) && IsPlay(core, h, Do(core, h, s, moves[0]), moves[1..]))
  }

  function Play(core: Core, h: Handshake, s: System, moves: seq<Move>): System
    requires IsPlay(core, h, s, moves)
    decreases |moves|
  {
    if moves == [] then s else Play(core, h, Do(core, h, s, moves[0]), moves[1..])
  }

  // ---------- the invariant ----------

  /** The answer of request id: that of the id-th line the agent handled. */
  function Due(core: Core, h: Handshake, s: System, id: int): Outcome
    requires 1 <= id <= |s.asked|
  {
    Settled(Answer(core, h, id - 1, s.asked[id - 1]))
  }

  /** How many frames the reader has handled. */
  function Delivered(s: System): int {
    s.served - |s.stdout|
  }

  ghost predicate CallOk(core: Core, h: Handshake, s: System, id: int) {
    (id in s.link.futures <==> 1 <= id <= |s.asked|) &&
    (id in s.link.callers <==> 1 <= id <= |s.asked|) &&
    (1 <= id <= |s.asked| ==>
      var future, caller := s.link.futures[id], s.link.callers[id];
      && (id <= Delivered(s) ==> future == Set(Due(core, h, s, id)) || future.Cancelled?)
      && (id > Delivered(s) ==> !future.Set?)
      && (future.Cancelled? ==> caller.TimedOut? || caller == Returned(LinkError("timed out")))
      && (caller.Returned? ==> !future.Unset?)
      && (caller.Returned? ==>
            caller.outcome == LinkError("timed out")
            || (id <= Delivered(s) && caller.outcome == Due(core, h, s, id))))
  }

  /** Frame i of stdout answers the next request but i. */
  ghost predicate OnWire(core: Core, h: Handshake, s: System, i: nat) {
    var k := Delivered(s) + i;
    i < |s.stdout| && 0 <= k < |s.asked| && s.stdout[i] == Answer(core, h, k, s.asked[k])
  }

  ghost predicate Pipes(core: Core, h: Handshake, s: System) {
    && s.link.nextId == |s.asked| + 1
    && (forall i | 0 <= i < |s.asked| :: s.asked[i].id == i + 1)
    && |s.stdout| <= s.served <= |s.asked|
    && s.stdin == s.asked[s.served..]
    && (forall i | 0 <= i < |s.stdout| :: OnWire(core, h, s, i))
  }

  ghost predicate SysInv(core: Core, h: Handshake, s: System) {
    && Inv(s.link)
    && s.link.running && !s.link.closing && s.link.reader.Reading? && s.link.exitError.None?
    && Pipes(core, h, s)
    && (forall id :: CallOk(core, h, s, id))
  }

  lemma AnswerId(core: Core, h: Handshake, k: nat, request: Request)
    ensures Answer(core, h, k, request).id == request.id
  {
  }

  lemma ServedOnWire(core: Core, h: Handshake, s: System)
    requires Pipes(core, h, s) && s.stdin != []
    ensures OnWire(core, h, Do(core, h, s, Serve), |s.stdout|)
  {
    assert s.stdin[0] == s.asked[s.served];
  }

  lemma WireStep(core: Core, h: Handshake, s: System, m: Move, i: nat)
    requires Pipes(core, h, s) && Can(s, m) && i < |Do(core, h, s, m).stdout|
    ensures OnWire(core, h, Do(core, h, s, m), i)
  {
    if m.Deliver? {
      assert OnWire(core, h, s, i + 1);
    } else if i < |s.stdout| {
      assert OnWire(core, h, s, i);
    } else {
      ServedOnWire(core, h, s);
    }
  }

  lemma PipesStep(core: Core, h: Handshake, s: System, m: Move)
    requires SysInv(core, h, s) && Can(s, m)
    ensures Pipes(core, h, Do(core, h, s, m))
  {
    var t := Do(core, h, s, m);
    forall i | 0 <= i < |t.stdout| ensures OnWire(core, h, t, i) {
      WireStep(core, h, s, m, i);
    }
    assert t.stdin == t.asked[t.served..];
  }

  lemma AskCall(core: Core, h: Handshake, s: System, name: string, params: Payload, id: int)
    requires SysInv(core, h, s)
    ensures CallOk(core, h, Do(core, h, s, AskFor(name, params)), id)
  {
    assert CallOk(core, h, s, id);
  }

  lemma CallerCall(core: Core, h: Handshake, s: System, e: Event, id: int)
    requires SysInv(core, h, s) && Can(s, CallerMove(e))
    ensures CallOk(core, h, Do(core, h, s, CallerMove(e)), id)
  {
    assert CallOk(core, h, s, id);
    assert InvAt(s.link, id);
  }

  /** The reader's next frame is the answer to the next request. */
  lemma NextFrame(core: Core, h: Handshake, s: System)
    requires Pipes(core, h, s) && s.stdout != []
    ensures s.stdout[0].id == Delivered(s) + 1 <= |s.asked|
    ensures Settled(s.stdout[0]) == Due(core, h, s, Delivered(s) + 1)
  {
    var d := Delivered(s);
    assert OnWire(core, h, s, 0);
    AnswerId(core, h, d, s.asked[d]);
  }

  lemma DeliverCall(core: Core, h: Handshake, s: System, id: int)
    requires SysInv(core, h, s) && Can(s, Deliver)
    ensures CallOk(core, h, Do(core, h, s, Deliver), id)
  {
    assert CallOk(core, h, s, id);
    assert InvAt(s.link, id);
    NextFrame(core, h, s);
  }

  lemma CallStep(core: Core, h: Handshake, s: System, m: Move, id: int)
    requires SysInv(core, h, s) && Can(s, m)
    ensures CallOk(core, h, Do(core, h, s, m), id)
  {
    match m {
      case AskFor(name, params) => AskCall(core, h, s, name, params, id);
      case CallerMove(e) => CallerCall(core, h, s, e, id);
      case Serve => assert CallOk(core, h, s, id);
      case Deliver => DeliverCall(core, h, s, id);
    }
  }

  lemma LinkStep(core: Core, h: Handshake, s: System, m: Move)
    requires SysInv(core, h, s) && Can(s, m)
    ensures Inv(Do(core, h, s, m).link)
  {
    match m {
      case AskFor(_, _) => InvStep(s.link, Ask);
      case CallerMove(e) => InvStep(s.link, e);
      case Serve =>
      case Deliver => InvStep(s.link, Received(s.stdout[0]));
    }
  }

  lemma SysInvStep(core: Core, h: Handshake, s: System, m: Move)
    requires SysInv(core, h, s) && Can(s, m)
    ensures SysInv(core, h, Do(core, h, s, m))
  {
    LinkStep(core, h, s, m);
    PipesStep(core, h, s, m);
    forall id ensures CallOk(core, h, Do(core, h, s, m), id) {
      CallStep(core, h, s, m, id);
    }
  }

  lemma {:induction false} SysInvPlay(core: Core, h: Handshake, s: System, moves: seq<Move>)
    requires SysInv(core, h, s) && IsPlay(core, h, s, moves)
    ensures SysInv(core, h, Play(core, h, s, moves))
    decreases |moves|
  {
    if moves != [] {
      SysInvStep(core, h, s, moves[0]);
      SysInvPlay(core, h, Do(core, h, s, moves[0]), moves[1..]);
    }
  }

  // ---------- what a caller gets ----------

  predicate NoTimer(moves: seq<Move>, id: int) {
    forall k | 0 <= k < |moves| :: moves[k] != CallerMove(TimerFired(id))
  }

  predicate NotTimedOut(s: System, id: int) {
    id in s.link.callers ==>
      !s.link.callers[id].TimedOut? && s.link.callers[id] != Returned(LinkError("timed out"))
  }

  lemma NoTimeoutStep(core: Core, h: Handshake, s: System, m: Move, id: int)
    requires SysInv(core, h, s) && Can(s, m) && NotTimedOut(s, id) && m != CallerMove(TimerFired(id))
    ensures NotTimedOut(Do(core, h, s, m), id)
  {
    assert CallOk(core, h, s, id);
    assert InvAt(s.link, id);
    AnsweredNotLink(core, h, s, id);
  }

  lemma {:induction false} NoTimerNoTimeout(core: Core, h: Handshake, s: System, moves: seq<Move>,
                                            id: int)
    requires SysInv(core, h, s) && IsPlay(core, h, s, moves) && NoTimer(moves, id)
    requires NotTimedOut(s, id)
    ensures NotTimedOut(Play(core, h, s, moves), id)
    decreases |moves|
  {
    if moves != [] {
      assert forall k | 0 <= k < |moves[1..]| :: moves[1..][k] == moves[k + 1];
      assert moves[0] != CallerMove(TimerFired(id));
      SysInvStep(core, h, s, moves[0]);
      NoTimeoutStep(core, h, s, moves[0], id);
      NoTimerNoTimeout(core, h, Do(core, h, s, moves[0]), moves[1..], id);
    }
  }

  lemma AnsweredNotLink(core: Core, h: Handshake, s: System, id: int)
    ensures 1 <= id <= |s.asked| ==> !Due(core, h, s, id).LinkError?
  {
  }

  /** Over every interleaving of any number of requests with the agent and the reader: a call that
      does not time out gets exactly the answer the agent gave to its own name and parameters, and
      when both pipes are empty every such call has it. */
  lemma RemoteAnswers(core: Core, h: Handshake, moves: seq<Move>, id: int)
    requires IsPlay(core, h, NEW_SYSTEM, moves) && NoTimer(moves, id)
    requires var s := Play(core, h, NEW_SYSTEM, moves); 1 <= id <= |s.asked|
    ensures var s := Play(core, h, NEW_SYSTEM, moves);
            && s.asked[id - 1].id == id
            && id in s.link.callers && id in s.link.futures
            && (s.link.callers[id].Returned? ==> s.link.callers[id].outcome == Due(core, h, s, id))
            && (s.stdin == [] && s.stdout == [] ==> s.link.futures[id] == Set(Due(core, h, s, id)))
  {
    SysInvPlay(core, h, NEW_SYSTEM, moves);
    NoTimerNoTimeout(core, h, NEW_SYSTEM, moves, id);
    var s := Play(core, h, NEW_SYSTEM, moves);
    assert CallOk(core, h, s, id);
  }

  /** The agent and the reader alone empty the pipes: first every line, then every frame. */
  function Flush(s: System): seq<Move> {
    seq(|s.stdin|, _ => Serve) + seq(|s.stdin| + |s.stdout|, _ => Deliver)
  }

  lemma {:induction false} FlushEmpties(core: Core, h: Handshake, s: System)
    requires SysInv(core, h, s)
    ensures IsPlay(core, h, s, Flush(s))
    ensures var t := Play(core, h, s, Flush(s));
            t.stdin == [] && t.stdout == [] && t.asked == s.asked && SysInv(core, h, t)
    decreases 2 * |s.stdin| + |s.stdout|
  {
    var moves := Flush(s);
    if s.stdin != [] {
      var t := Do(core, h, s, Serve);
      SysInvStep(core, h, s, Serve);
      assert moves[0] == Serve && moves[1..] == Flush(t);
      FlushEmpties(core, h, t);
    } else if s.stdout != [] {
      var t := Do(core, h, s, Deliver);
      SysInvStep(core, h, s, Deliver);
      assert moves[0] == Deliver && moves[1..] == Flush(t);
      FlushEmpties(core, h, t);
    }
  }

  lemma {:induction false} PlayConcat(core: Core, h: Handshake, s: System, a: seq<Move>, b: seq<Move>)
    requires IsPlay(core, h, s, a) && IsPlay(core, h, Play(core, h, s, a), b)
    ensures IsPlay(core, h, s, a + b)
    ensures Play(core, h, s, a + b) == Play(core, h, Play(core, h, s, a), b)
    decreases |a|
  {
    if a == [] {
      assert a + b == b;
    } else {
      assert (a + b)[1..] == a[1..] + b;
      PlayConcat(core, h, Do(core, h, s, a[0]), a[1..], b);
    }
  }

  function CallerMoves(events: seq<Event>): seq<Move> {
    seq(|events|, i requires 0 <= i < |events| => CallerMove(events[i]))
  }

  /** A caller's own run of the link is a play of the whole. */
  lemma {:induction false} CallerPlays(core: Core, h: Handshake, s: System, events: seq<Event>)
    requires IsRun(s.link, events)
    requires forall e | e in events :: e.Drained? || e.TimerFired? || e.Resumed?
    ensures IsPlay(core, h, s, CallerMoves(events))
    ensures Play(core, h, s, CallerMoves(events)) == s.(link := Run(s.link, events))
    decreases |events|
  {
    if events != [] {
      var t := Do(core, h, s, CallerMove(events[0]));
      assert CallerMoves(events)[1..] == CallerMoves(events[1..]);
      CallerPlays(core, h, t, events[1..]);
    }
  }

  /** Whatever a call is waiting for, the agent, the reader and its own moves bring it its answer. */
  function Finish(core: Core, h: Handshake, s: System, id: int): seq<Move>
    requires IsPlay(core, h, s, Flush(s)) && id in Play(core, h, s, Flush(s)).link.callers
  {
    Flush(s) + CallerMoves(OwnMoves(Play(core, h, s, Flush(s)).link, id))
  }

  /** From every reachable state every call that has not timed out can return, and what it returns is
      the answer to its own request. */
  lemma CallReturns(core: Core, h: Handshake, s: System, id: int)
    requires SysInv(core, h, s) && 1 <= id <= |s.asked| && NotTimedOut(s, id)
    ensures IsPlay(core, h, s, Flush(s)) && id in Play(core, h, s, Flush(s)).link.callers
    ensures IsPlay(core, h, s, Finish(core, h, s, id))
    ensures var t := Play(core, h, s, Finish(core, h, s, id));
            id in t.link.callers && t.asked == s.asked
            && t.link.callers[id] == Returned(Due(core, h, s, id))
  {
    FlushEmpties(core, h, s);
    NoTimerNoTimeout(core, h, s, Flush(s), id);
    var t := Play(core, h, s, Flush(s));
    assert CallOk(core, h, t, id) && InvAt(t.link, id);
    if t.link.callers[id].Returned? {
      assert CallerMoves([]) == [];
      assert Flush(s) + [] == Flush(s);
    } else {
      SettledCallerReturns(t.link, id);
      CallerPlays(core, h, t, OwnMoves(t.link, id));
      PlayConcat(core, h, s, Flush(s), CallerMoves(OwnMoves(t.link, id)));
    }
  }

  /** And one whose time is up returns the timeout. */
  lemma CallTimesOut(core: Core, h: Handshake, s: System, id: int)
    requires SysInv(core, h, s) && Has(s.link, id, Waiting)
    ensures var moves := CallerMoves([TimerFired(id)] + [Resumed(id)]);
            && IsPlay(core, h, s, moves)
            && var t := Play(core, h, s, moves);
               id in t.link.callers && t.link.callers[id] == Returned(LinkError("timed out"))
  {
    WaitingCallerTimesOut(s.link, id);
    CallerPlays(core, h, s, [TimerFired(id)] + [Resumed(id)]);
  }

  // ---------- against the in-process transport ----------

  /** LocalTransport.request: a CoreError becomes an AgentError, another exception propagates. */
  datatype LocalResult = Done(outcome: Outcome) | Propagates(message: string)

  function Local(core: Core, k: nat, name: string, params: Payload): LocalResult {
    match core(k, name, params)
    case Result(payload) => Done(Answered(payload))
    case CoreError(code, message, data) => Done(AgentError(code, message, data))
    case Raised(message) => Propagates(message)
  }

  /** An agent of a compatible build answers every call as the in-process core would; the one
      difference is an unexpected exception, which the wire turns into an internal error. */
  lemma RemoteIsLocal(core: Core, h: Handshake, k: nat, request: Request)
    ensures var remote := Settled(Answer(core, h, k, request));
            if !VersionsCompatible(h.builtVersion, h.runningVersion)
            then remote.AgentError? && remote.code == ERR_VERSION_MISMATCH
            else match Local(core, k, request.name, request.params)
              case Done(outcome) => remote == outcome
              case Propagates(message) => remote == AgentError(ERR_INTERNAL, message, map[])
  {
  }

  /** The serve loop gives the i-th request line exactly the i-th answer assumed above. */
  lemma {:induction false} ServeGivesAnswers(core: Core, h: Handshake, asked: seq<Request>,
                                             lines: seq<Line>, frames: seq<Response>)
    requires |lines| == |asked| && forall i | 0 <= i < |lines| :: lines[i] == Frame(asked[i])
    requires Served(core, h, lines, frames)
    ensures |frames| == |asked|
    ensures forall i | 0 <= i < |frames| :: frames[i] == Answer(core, h, i, asked[i])
  {
    AllNonBlank(lines);
    forall i: nat | i < |frames| ensures frames[i] == Answer(core, h, i, asked[i]) {
      assert FrameAt(core, h, lines, frames, i);
      if Refusal(h).Some? {
        RefusalAnswer(core, h, DispatchCount(h, lines[..i]), i, asked[i]);
      } else {
        AllDispatched(h, lines[..i]);
      }
    }
  }

  lemma {:induction false} AllNonBlank(lines: seq<Line>)
    requires forall i | 0 <= i < |lines| :: lines[i].Frame?
    ensures NonBlank(lines) == lines
  {
    if lines != [] {
      var init, last := lines[..|lines| - 1], lines[|lines| - 1];
      AllNonBlank(init);
      assert lines == init + [last];
      NonBlankSnoc(init, last);
    }
  }

  lemma {:induction false} AllDispatched(h: Handshake, lines: seq<Line>)
    requires Refusal(h).None? && forall i | 0 <= i < |lines| :: lines[i].Frame?
    ensures DispatchCount(h, lines) == |lines|
  {
    if lines != [] {
      AllDispatched(h, lines[..|lines| - 1]);
      assert Dispatches(h, lines[|lines| - 1]);
    }
  }
}
