/**
 The same composition when anything may break: failed writes, EOF, crashes, closes and restarts, in
 any order and at any time. Calls may then fail, but no call gets another call's answer.
 */
module Faults {
  import opened Agent
  import opened Transport
  import opened Remote

  /** One line that an agent handled, and the handshake of that agent. */
  datatype Serving = Serving(request: Request, h: Handshake)

  /** As System, with `log` all the lines handled so far, in order. */
  datatype FaultySystem = FaultySystem(
    link: Link,
    asked: seq<Request>,
    stdin: seq<Request>,
    log: seq<Serving>,
    stdout: seq<Response>)

  datatype FaultyMove =
    | Asks(name: string, params: Payload)
    | LinkMove(event: Event)                // anything but a request or a frame
    | Serves(h: Handshake)                  // the agent of this handshake handles one line
    | Delivers(frame: Response)             // the reader handles the next frame
    | Cut(stdinLeft: nat, stdoutLeft: nat)  // a broken pipe loses what it held last

  const NEW_FAULTY_SYSTEM := FaultySystem(NEW_LINK, [], [], [], [])

  predicate MayMove(s: FaultySystem, m: FaultyMove) {
    match m
    case Asks(_, _) => true
    case LinkMove(e) => !e.Ask? && !e.Received? && Enabled(s.link, e)
    case Serves(_) => s.stdin != []
    case Delivers(frame) => s.stdout != [] && s.stdout[0] == frame && Enabled(s.link, Received(frame))
    case Cut(i, o) => i <= |s.stdin| && o <= |s.stdout|
  }

  /** The frame that the k-th handled line got. */
  function Given(core: Core, log: seq<Serving>, k: nat): Response
    requires k < |log|
  {
    Answer(core, log[k].h, k, log[k].request)
  }

  /** A new process has new pipes; the count of dispatches goes on. */
  function Move(core: Core, s: FaultySystem, m: FaultyMove): FaultySystem
    requires MayMove(s, m)
  {
    match m
    case Asks(name, params) =>
      var request := Request(s.link.nextId, name, params);
      if Refuses(s.link).Some? then s
      else s.(link := Step(s.link, Ask), asked := s.asked + [request], stdin := s.stdin + [request])
    case LinkMove(e) =>
      var t := s.(link := Step(s.link, e));
      if e.Spawn? then t.(stdin := [], stdout := []) else t
    case Serves(h) =>
      var log := s.log + [Serving(s.stdin[0], h)];
      s.(stdin := s.stdin[1..], log := log, stdout := s.stdout + [Given(core, log, |s.log|)])
    case Delivers(frame) => s.(stdout := s.stdout[1..], link := Step(s.link, Received(frame)))
    case Cut(i, o) => s.(stdin := s.stdin[..i], stdout := s.stdout[..o])
  }

  predicate IsFaultyPlay(core: Core, s: FaultySystem, moves: seq<FaultyMove>)
    decreases |moves|
  {
    moves == [] || (MayMove(s, moves[0]) && IsFaultyPlay(core, Move(core, s, moves[0]), moves[1..]))
  }

  function FaultyPlay(core: Core, s: FaultySystem, moves: seq<FaultyMove>): FaultySystem
    requires IsFaultyPlay(core, s, moves)
    decreases |moves|
  {
    if moves == [] then s else FaultyPlay(core, Move(core, s, moves[0]), moves[1..])
  }

  // ---------- the invariant ----------

  ghost predicate Written(asked: seq<Request>, request: Request) {
    1 <= request.id <= |asked| && asked[request.id - 1] == request
  }

  /** The k-th handled line was a request that was asked, and this frame its answer. */
  ghost predicate GivenAt(core: Core, asked: seq<Request>, log: seq<Serving>, frame: Response, k: nat) {
    k < |log| && Written(asked, log[k].request) && frame == Given(core, log, k)
  }

  ghost predicate Genuine(core: Core, asked: seq<Request>, log: seq<Serving>, frame: Response) {
    exists k :: 0 <= k < |log| && GivenAt(core, asked, log, frame, k)
  }

  /** The k-th handled line was this request, and the outcome what it was answered. */
  ghost predicate AnsweredAt(core: Core, log: seq<Serving>, request: Request, outcome: Outcome, k: nat) {
    k < |log| && log[k].request == request && outcome == Settled(Given(core, log, k))
  }

  ghost predicate Answers(core: Core, log: seq<Serving>, request: Request, outcome: Outcome) {
    exists k :: 0 <= k < |log| && AnsweredAt(core, log, request, outcome, k)
  }

  ghost predicate OwnAt(core: Core, s: FaultySystem, id: int) {
    (id in s.link.futures ==> 1 <= id <= |s.asked|) &&
    (id in s.link.futures && s.link.futures[id].Set? && !s.link.futures[id].outcome.LinkError? ==>
      Answers(core, s.log, s.asked[id - 1], s.link.futures[id].outcome))
  }

  ghost predicate Numbered(s: FaultySystem) {
    s.link.nextId == |s.asked| + 1 && forall i | 0 <= i < |s.asked| :: s.asked[i].id == i + 1
  }

  ghost predicate PipesGenuine(core: Core, s: FaultySystem) {
    && (forall i | 0 <= i < |s.stdin| :: Written(s.asked, s.stdin[i]))
    && (forall i | 0 <= i < |s.stdout| :: Genuine(core, s.asked, s.log, s.stdout[i]))
  }

  ghost predicate FaultyInv(core: Core, s: FaultySystem) {
    && Inv(s.link) && Numbered(s) && PipesGenuine(core, s)
    && (forall id :: OwnAt(core, s, id))
  }

  lemma LinkKeeps(core: Core, s: FaultySystem, m: FaultyMove)
    requires FaultyInv(core, s) && MayMove(s, m)
    ensures Inv(Move(core, s, m).link) && Numbered(Move(core, s, m))
  {
    match m {
      case Asks(_, _) => InvStep(s.link, Ask);
      case LinkMove(e) => InvStep(s.link, e);
      case Delivers(frame) => InvStep(s.link, Received(frame));
      case _ =>
    }
  }

  lemma GenuineGrows(core: Core, asked: seq<Request>, more: seq<Request>, log: seq<Serving>,
                     later: seq<Serving>, frame: Response)
    requires Genuine(core, asked, log, frame)
    ensures Genuine(core, asked + more, log + later, frame)
  {
    var k :| 0 <= k < |log| && GivenAt(core, asked, log, frame, k);
    assert (log + later)[k] == log[k];
    assert GivenAt(core, asked + more, log + later, frame, k);
  }

  lemma AnswersGrow(core: Core, log: seq<Serving>, later: seq<Serving>, request: Request,
                    outcome: Outcome)
    requires Answers(core, log, request, outcome)
    ensures Answers(core, log + later, request, outcome)
  {
    var k :| 0 <= k < |log| && AnsweredAt(core, log, request, outcome, k);
    assert (log + later)[k] == log[k];
    assert AnsweredAt(core, log + later, request, outcome, k);
  }

  lemma PipesKeep(core: Core, s: FaultySystem, m: FaultyMove)
    requires FaultyInv(core, s) && MayMove(s, m)
    ensures PipesGenuine(core, Move(core, s, m))
  {
    var t := Move(core, s, m);
    var more, later := t.asked[|s.asked|..], t.log[|s.log|..];
    assert t.asked == s.asked + more && t.log == s.log + later;
    forall i | 0 <= i < |s.stdout| ensures Genuine(core, t.asked, t.log, s.stdout[i]) {
      GenuineGrows(core, s.asked, more, s.log, later, s.stdout[i]);
    }
    match m {
      case Serves(h) =>
        assert Written(s.asked, s.stdin[0]);
        assert GivenAt(core, t.asked, t.log, Given(core, t.log, |s.log|), |s.log|);
      case _ =>
    }
  }

  /** A genuine frame settles the future of the very request it answers. */
  lemma FrameIsOwn(core: Core, asked: seq<Request>, log: seq<Serving>, frame: Response)
    requires Genuine(core, asked, log, frame)
    ensures 1 <= frame.id <= |asked| && Answers(core, log, asked[frame.id - 1], Settled(frame))
  {
    var k :| 0 <= k < |log| && GivenAt(core, asked, log, frame, k);
    AnswerId(core, log[k].h, k, log[k].request);
    assert AnsweredAt(core, log, asked[frame.id - 1], Settled(frame), k);
  }

  /** No step but a frame's delivery gives a call an answer. */
  lemma OnlyFramesAnswer(s: Link, e: Event, id: int)
    requires Inv(s) && Enabled(s, e) && !e.Received?
    requires id in Step(s, e).futures && Step(s, e).futures[id].Set?
    requires !Step(s, e).futures[id].outcome.LinkError?
    ensures id in s.futures && Step(s, e).futures[id] == s.futures[id]
  {
    assert InvAt(s, id);
  }

  lemma OwnAfterLink(core: Core, s: FaultySystem, e: Event, id: int)
    requires FaultyInv(core, s) && MayMove(s, LinkMove(e))
    ensures OwnAt(core, Move(core, s, LinkMove(e)), id)
  {
    assert OwnAt(core, s, id);
    var t := Step(s.link, e);
    assert t.futures.Keys == s.link.futures.Keys;
    if id in t.futures && t.futures[id].Set? && !t.futures[id].outcome.LinkError? {
      OnlyFramesAnswer(s.link, e, id);
    }
  }

  lemma OwnAfterFrame(core: Core, s: FaultySystem, frame: Response, id: int)
    requires FaultyInv(core, s) && MayMove(s, Delivers(frame))
    ensures OwnAt(core, Move(core, s, Delivers(frame)), id)
  {
    assert OwnAt(core, s, id);
    assert Genuine(core, s.asked, s.log, s.stdout[0]);
    FrameIsOwn(core, s.asked, s.log, frame);
  }

  lemma OwnKeeps(core: Core, s: FaultySystem, m: FaultyMove, id: int)
    requires FaultyInv(core, s) && MayMove(s, m)
    ensures OwnAt(core, Move(core, s, m), id)
  {
    assert OwnAt(core, s, id);
    match m {
      case LinkMove(e) => OwnAfterLink(core, s, e, id);
      case Delivers(frame) => OwnAfterFrame(core, s, frame, id);
      case Serves(h) =>
        if id in s.link.futures && s.link.futures[id].Set? && !s.link.futures[id].outcome.LinkError? {
          AnswersGrow(core, s.log, [Serving(s.stdin[0], h)], s.asked[id - 1],
                      s.link.futures[id].outcome);
        }
      case _ =>
    }
  }

  lemma FaultyStep(core: Core, s: FaultySystem, m: FaultyMove)
    requires FaultyInv(core, s) && MayMove(s, m)
    ensures FaultyInv(core, Move(core, s, m))
  {
    LinkKeeps(core, s, m);
    PipesKeep(core, s, m);
    forall id ensures OwnAt(core, Move(core, s, m), id) {
      OwnKeeps(core, s, m, id);
    }
  }

  lemma {:induction false} FaultyRun(core: Core, s: FaultySystem, moves: seq<FaultyMove>)
    requires FaultyInv(core, s) && IsFaultyPlay(core, s, moves)
    ensures FaultyInv(core, FaultyPlay(core, s, moves))
    decreases |moves|
  {
    if moves != [] {
      FaultyStep(core, s, moves[0]);
      FaultyRun(core, Move(core, s, moves[0]), moves[1..]);
    }
  }

  /** Over every run with any faults and restarts: a call ends in a link error, or in what an agent
      of this run answered when it handled this very call's line. */
  lemma FaultyAnswers(core: Core, moves: seq<FaultyMove>, id: int)
    requires IsFaultyPlay(core, NEW_FAULTY_SYSTEM, moves)
    ensures var s := FaultyPlay(core, NEW_FAULTY_SYSTEM, moves);
            id in s.link.callers && s.link.callers[id].Returned? ==>
              && 1 <= id <= |s.asked| && s.asked[id - 1].id == id
              && (s.link.callers[id].outcome.LinkError?
                  || Answers(core, s.log, s.asked[id - 1], s.link.callers[id].outcome))
  {
    FaultyRun(core, NEW_FAULTY_SYSTEM, moves);
    var s := FaultyPlay(core, NEW_FAULTY_SYSTEM, moves);
    assert InvAt(s.link, id) && OwnAt(core, s, id);
  }
}
