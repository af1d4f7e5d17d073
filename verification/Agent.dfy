/**
 The frames of the NDJSON protocol and the agent's serve loop. Encoding and decoding are taken as
 inverse on frames, so a line is a frame, a blank, or something that does not decode.
 */
module Agent {
  import opened Wrappers
  import opened Text
  import opened Sorting

  /** A JSON object; the empty one stands for an absent one. */
  type Payload = map<string, string>

  datatype Request = Request(id: int, name: string, params: Payload)

  datatype ErrorInfo = ErrorInfo(code: string, message: string, data: Option<Payload>)

  datatype Response = Response(id: int, result: Option<Payload>, error: Option<ErrorInfo>)

  const ERR_BAD_REQUEST := "bad_request"
  const ERR_VERSION_MISMATCH := "version_mismatch"
  const ERR_INTERNAL := "internal"
  const BOOTSTRAP_HINT := "re-run `slurm-monitor bootstrap --force` to rebuild the agent"

  datatype Handshake = Handshake(
    protocolVersion: int,
    builtVersion: string,
    runningVersion: string,
    extensionAvailable: bool)

  // ---------- versions ----------

  function MajorMinor(version: string): seq<string> {
    var parts := Split(version, '.');
    if |parts| <= 2 then parts else parts[..2]
  }

  /** The patch component does not matter. */
  predicate VersionsCompatible(built: string, running: string) {
    MajorMinor(built) == MajorMinor(running)
  }

  /** Two versions, written as components between dots, agree iff their first two components do, or
      both have only one; whatever patch follows does not matter. */
  lemma VersionsAgreeIff(a: seq<string>, b: seq<string>)
    requires |a| >= 1 && |b| >= 1
    requires forall i | 0 <= i < |a| :: '.' !in a[i]
    requires forall i | 0 <= i < |b| :: '.' !in b[i]
    ensures VersionsCompatible(Join(a, '.'), Join(b, '.')) <==>
              a[0] == b[0]
              && (|a| == 1 <==> |b| == 1) && (|a| > 1 && |b| > 1 ==> a[1] == b[1])
  {
    SplitJoin(a, '.');
    SplitJoin(b, '.');
    if |a| > 2 { assert a[..2] == [a[0], a[1]]; }
    if |b| > 2 { assert b[..2] == [b[0], b[1]]; }
  }

  /** Every version text is such a list of components. */
  lemma {:induction false} EveryVersion(version: string)
    ensures Join(Split(version, '.'), '.') == version
    ensures forall i | 0 <= i < |Split(version, '.')| :: '.' !in Split(version, '.')[i]
  {
    if version != "" {
      EveryVersion(version[1..]);
      var rest := Split(version[1..], '.');
      if version[0] == '.' {
        assert ([""] + rest)[1..] == rest;
      } else {
        var parts := Split(version, '.');
        assert parts[1..] == rest[1..];
      }
    }
  }

  /** The unsolicited first frame. */
  function HelloFrame(h: Handshake): Response {
    Response(0, Some(map["protocol_version" := IntText(h.protocolVersion),
                         "slurm_built_version" := h.builtVersion,
                         "slurm_running_version" := h.runningVersion,
                         "extension_available" := if h.extensionAvailable then "true" else "false"]),
             None)
  }

  /** The frame tells the client everything it checks. */
  lemma HelloFrameTells(h: Handshake, h': Handshake)
    ensures HelloFrame(h).id == 0 && HelloFrame(h).error.None?
    ensures HelloFrame(h) == HelloFrame(h') <==> h == h'
  {
    var m, m' := HelloFrame(h).result.value, HelloFrame(h').result.value;
    if m == m' {
      assert m["protocol_version"] == m'["protocol_version"];
      IntTextInjective(h.protocolVersion, h'.protocolVersion);
      assert m["slurm_built_version"] == m'["slurm_built_version"];
      assert m["slurm_running_version"] == m'["slurm_running_version"];
      assert m["extension_available"] == m'["extension_available"];
    }
  }

  /** Why the agent refuses every request, if it does. */
  function Refusal(h: Handshake): Option<string> {
    if VersionsCompatible(h.builtVersion, h.runningVersion) then None
    else Some("agent built against Slurm " + h.builtVersion + " but slurmctld runs "
              + h.runningVersion + "; " + BOOTSTRAP_HINT)
  }

  /** The refusal names both versions, the agent's own first, and the remedy. */
  lemma RefusalNames(h: Handshake)
    ensures Refusal(h).Some? <==> !VersionsCompatible(h.builtVersion, h.runningVersion)
    ensures Refusal(h).Some? ==>
              exists a, b, c ::
                Refusal(h).value == a + h.builtVersion + b + h.runningVersion + c + BOOTSTRAP_HINT
  {
    if Refusal(h).Some? {
      var a, b, c := "agent built against Slurm ", " but slurmctld runs ", "; ";
      assert Refusal(h).value == a + h.builtVersion + b + h.runningVersion + c + BOOTSTRAP_HINT;
    }
  }

  // ---------- dispatch ----------

  /** What dispatching a request does: a result, a CoreError, or any other exception. */
  datatype Dispatched =
    | Result(payload: Payload)
    | CoreError(code: string, message: string, data: Payload)
    | Raised(message: string)   // the exception's type and text

  /** The core may change between calls, so the k-th dispatch has its own answers. */
  type Core = (nat, string, Payload) -> Dispatched

  datatype Line = Blank | Garbled(reason: string) | Frame(request: Request)

  function ErrorResponse(id: int, code: string, message: string, data: Option<Payload>): Response {
    Response(id, None, Some(ErrorInfo(code, message, data)))
  }

  function OrNone(data: Payload): Option<Payload> {
    if data == map[] then None else Some(data)
  }

  function Reply(core: Core, k: nat, request: Request): Response {
    match core(k, request.name, request.params)
    case Result(payload) => Response(request.id, Some(payload), None)
    case CoreError(code, message, data) => ErrorResponse(request.id, code, message, OrNone(data))
    case Raised(message) => ErrorResponse(request.id, ERR_INTERNAL, message, None)
  }

  function MismatchData(h: Handshake): Payload {
    map["slurm_built_version" := h.builtVersion, "slurm_running_version" := h.runningVersion]
  }

  /** The frame an accepted request gets from an agent with handshake h. */
  function Answer(core: Core, h: Handshake, k: nat, request: Request): Response {
    match Refusal(h)
    case None => Reply(core, k, request)
    case Some(why) => ErrorResponse(request.id, ERR_VERSION_MISMATCH, why, Some(MismatchData(h)))
  }

  /** On the wire: an error carries its data only if there is any, and never a result beside it. */
  lemma AnswerFrame(core: Core, h: Handshake, k: nat, request: Request)
    requires VersionsCompatible(h.builtVersion, h.runningVersion)
    ensures var frame := Answer(core, h, k, request);
            && frame.id == request.id && (frame.result.Some? <==> frame.error.None?)
            && match core(k, request.name, request.params)
               case Result(payload) => frame.result == Some(payload)
               case Raised(why) => frame.error == Some(ErrorInfo("internal", why, None))
               case CoreError(code, message, data) =>
                 frame.error.Some? && frame.error.value.code == code
                 && frame.error.value.message == message
                 && (frame.error.value.data.None? <==> data == map[])
                 && (frame.error.value.data.Some? ==> frame.error.value.data.value == data)
  {
  }

  // ---------- serve ----------

  predicate Dispatches(h: Handshake, line: Line) {
    line.Frame? && Refusal(h).None?
  }

  /** How many of the lines are dispatched. */
  function DispatchCount(h: Handshake, lines: seq<Line>): nat {
    if lines == [] then 0
    else DispatchCount(h, lines[..|lines| - 1]) + if Dispatches(h, lines[|lines| - 1]) then 1 else 0
  }

  function NonBlank(lines: seq<Line>): seq<Line> {
    if lines == [] then []
    else NonBlank(lines[..|lines| - 1]) + if lines[|lines| - 1].Blank? then [] else [lines[|lines| - 1]]
  }

  function LineAnswer(core: Core, h: Handshake, k: nat, line: Line): Response
    requires !line.Blank?
  {
    match line
    case Garbled(reason) => ErrorResponse(-1, ERR_BAD_REQUEST, reason, None)
    case Frame(request) => Answer(core, h, k, request)
  }

  lemma {:induction false} BlanksNotDispatched(h: Handshake, lines: seq<Line>)
    ensures DispatchCount(h, NonBlank(lines)) == DispatchCount(h, lines)
  {
    if lines != [] {
      var init, last := lines[..|lines| - 1], lines[|lines| - 1];
      BlanksNotDispatched(h, init);
      if last.Blank? {
        assert NonBlank(lines) == NonBlank(init);
      } else {
        assert NonBlank(lines)[..|NonBlank(init)|] == NonBlank(init);
      }
    }
  }

  lemma LineAnswerId(core: Core, h: Handshake, k: nat, line: Line)
    requires !line.Blank?
    ensures LineAnswer(core, h, k, line).id == if line.Frame? then line.request.id else -1
  {
  }

  ghost predicate FrameAt(core: Core, h: Handshake, asked: seq<Line>, frames: seq<Response>, i: nat)
    requires i < |asked| && i < |frames|
  {
    && !asked[i].Blank?
    && frames[i] == LineAnswer(core, h, DispatchCount(h, asked[..i]), asked[i])
  }

  ghost predicate Framed(core: Core, h: Handshake, asked: seq<Line>, frames: seq<Response>) {
    |frames| == |asked| && forall i: nat | i < |frames| :: FrameAt(core, h, asked, frames, i)
  }

  /** One frame per non-blank line, in order, holding the answer to it. */
  ghost predicate Served(core: Core, h: Handshake, lines: seq<Line>, frames: seq<Response>) {
    Framed(core, h, NonBlank(lines), frames)
  }

  lemma FrameStays(core: Core, h: Handshake, asked: seq<Line>, frames: seq<Response>, i: nat,
                   line: Line, frame: Response)
    requires |frames| == |asked| && i < |asked| && FrameAt(core, h, asked, frames, i)
    ensures FrameAt(core, h, asked + [line], frames + [frame], i)
  {
    assert (asked + [line])[..i] == asked[..i];
  }

  lemma FrameAdded(core: Core, h: Handshake, asked: seq<Line>, frames: seq<Response>,
                   line: Line, frame: Response)
    requires |frames| == |asked| && !line.Blank?
    requires frame == LineAnswer(core, h, DispatchCount(h, asked), line)
    ensures FrameAt(core, h, asked + [line], frames + [frame], |asked|)
  {
  }

  lemma FramedStep(core: Core, h: Handshake, asked: seq<Line>, frames: seq<Response>,
                   line: Line, frame: Response)
    requires Framed(core, h, asked, frames) && !line.Blank?
    requires frame == LineAnswer(core, h, DispatchCount(h, asked), line)
    ensures Framed(core, h, asked + [line], frames + [frame])
  {
    FrameAdded(core, h, asked, frames, line, frame);
    forall i: nat | i < |frames| ensures FrameAt(core, h, asked + [line], frames + [frame], i) {
      FrameStays(core, h, asked, frames, i, line, frame);
    }
  }

  lemma NonBlankSnoc(lines: seq<Line>, line: Line)
    ensures NonBlank(lines + [line]) == NonBlank(lines) + if line.Blank? then [] else [line]
  {
  }

  lemma ServedStep(core: Core, h: Handshake, lines: seq<Line>, frames: seq<Response>, line: Line,
                   frame: Response)
    requires Served(core, h, lines, frames)
    requires !line.Blank? ==> frame == LineAnswer(core, h, DispatchCount(h, lines), line)
    ensures Served(core, h, lines + [line], if line.Blank? then frames else frames + [frame])
  {
    NonBlankSnoc(lines, line);
    if line.Blank? {
      assert NonBlank(lines) + [] == NonBlank(lines);
    } else {
      BlanksNotDispatched(h, lines);
      FramedStep(core, h, NonBlank(lines), frames, line, frame);
    }
  }

  /** core.hello(): a handshake, or the text of what it raised. */
  datatype Hello = Greets(h: Handshake) | Fails(why: string)

  /** serve: the handshake first, then the loop to the end of stdin. */
  method Serve(hello: Hello, core: Core, lines: seq<Line>)
    returns (exitCode: int, frames: seq<Response>)
    ensures hello.Fails? ==> exitCode == 1 && |frames| == 1 && frames[0].id == 0
                             && frames[0].result.None? && frames[0].error.Some?
                             && frames[0].error.value.code == ERR_INTERNAL
    ensures hello.Greets? ==> exitCode == 0 && |frames| >= 1 && frames[0] == HelloFrame(hello.h)
                              && Served(core, hello.h, lines, frames[1..])
  {
    if hello.Fails? {
      return 1, [ErrorResponse(0, ERR_INTERNAL, "handshake failed: " + hello.why, None)];
    }
    var h := hello.h;
    frames := [HelloFrame(h)];
    var refusal := Refusal(h);
    var dispatched := 0;
    for i := 0 to |lines|
      invariant dispatched == DispatchCount(h, lines[..i])
      invariant |frames| >= 1 && frames[0] == HelloFrame(h)
      invariant Served(core, h, lines[..i], frames[1..])
    {
      var line := lines[i];
      ghost var before := frames[1..];
      assert lines[..i + 1] == lines[..i] + [line];
      assert lines[..i + 1][..i] == lines[..i];
      match line {
        case Blank =>
        case Garbled(reason) =>
          frames := frames + [ErrorResponse(-1, ERR_BAD_REQUEST, reason, None)];
        case Frame(request) =>
          if refusal.Some? {
            frames := frames + [ErrorResponse(request.id, ERR_VERSION_MISMATCH, refusal.value,
                                              Some(MismatchData(h)))];
          } else {
            frames := frames + [Reply(core, dispatched, request)];
            dispatched := dispatched + 1;
          }
      }
      assert !line.Blank? ==> frames[1..] == before + [frames[|frames| - 1]];
      ServedStep(core, h, lines[..i], before, line, frames[|frames| - 1]);
    }
    assert lines[..|lines|] == lines;
    return 0, frames;
  }

  /** The k-th frame carries the id of the k-th non-blank line; one for a line that does not decode
      carries -1 and says bad_request. */
  lemma ServedIds(core: Core, h: Handshake, lines: seq<Line>, frames: seq<Response>)
    requires Served(core, h, lines, frames)
    ensures var asked := NonBlank(lines);
            && |frames| == |asked|
            && forall i | 0 <= i < |frames| ::
                 match asked[i]
                 case Frame(request) => frames[i].id == request.id
                 case Garbled(why) =>
                   frames[i] == Response(-1, None, Some(ErrorInfo("bad_request", why, None)))
                 case Blank => false
  {
    var asked := NonBlank(lines);
    forall i: nat | i < |frames|
      ensures match asked[i]
              case Frame(request) => frames[i].id == request.id
              case Garbled(why) =>
                frames[i] == Response(-1, None, Some(ErrorInfo("bad_request", why, None)))
              case Blank => false
    {
      assert FrameAt(core, h, asked, frames, i);
      LineAnswerId(core, h, DispatchCount(h, asked[..i]), asked[i]);
    }
  }

  lemma {:induction false} NonBlankIsFilter(lines: seq<Line>)
    ensures NonBlank(lines) == Filter(lines, (line: Line) => !line.Blank?)
  {
    if lines != [] {
      var init, last := lines[..|lines| - 1], lines[|lines| - 1];
      NonBlankIsFilter(init);
      FilterSnoc(init, last, (line: Line) => !line.Blank?);
      assert lines == init + [last];
    }
  }

  /** The lines that get an answer are exactly those that are not blank, in order. */
  lemma NonBlankSelects(lines: seq<Line>)
    ensures Selects(NonBlank(lines), lines, (line: Line) => !line.Blank?)
  {
    NonBlankIsFilter(lines);
    FilterSelects(lines, (line: Line) => !line.Blank?);
  }

  /** The code, and the two versions as data. */
  ghost predicate IsMismatch(error: Option<ErrorInfo>, h: Handshake) {
    && error.Some? && error.value.code == "version_mismatch"
    && error.value.data.Some?
    && "slurm_built_version" in error.value.data.value
    && "slurm_running_version" in error.value.data.value
    && error.value.data.value["slurm_built_version"] == h.builtVersion
    && error.value.data.value["slurm_running_version"] == h.runningVersion
  }

  /** A mismatched agent never dispatches: every request is refused with version_mismatch. */
  lemma {:induction false} RefusesAll(core: Core, h: Handshake, lines: seq<Line>, frames: seq<Response>)
    requires Served(core, h, lines, frames) && !VersionsCompatible(h.builtVersion, h.runningVersion)
    ensures DispatchCount(h, lines) == 0
    ensures forall i | 0 <= i < |frames| && NonBlank(lines)[i].Frame? ::
              IsMismatch(frames[i].error, h)
  {
    NeverDispatches(h, lines);
    var asked := NonBlank(lines);
    forall i: nat | i < |frames| && asked[i].Frame?
      ensures IsMismatch(frames[i].error, h)
    {
      assert FrameAt(core, h, asked, frames, i);
      RefusalAnswer(core, h, DispatchCount(h, asked[..i]), 0, asked[i].request);
    }
  }

  /** A refusal does not depend on what was dispatched before. */
  lemma RefusalAnswer(core: Core, h: Handshake, k: nat, k': nat, request: Request)
    requires Refusal(h).Some?
    ensures var frame := Answer(core, h, k, request);
            IsMismatch(frame.error, h) && frame == Answer(core, h, k', request)
  {
  }

  lemma {:induction false} NeverDispatches(h: Handshake, lines: seq<Line>)
    requires Refusal(h).Some?
    ensures DispatchCount(h, lines) == 0
  {
    if lines != [] {
      NeverDispatches(h, lines[..|lines| - 1]);
    }
  }
}
