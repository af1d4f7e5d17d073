/**
 SubprocessTransport: callers, the reader task, timers, EOF and close share one table of pending
 futures. A step is the code between two awaits. A future is named by the id of its request.
 */
module Transport {
  import opened Wrappers
  import opened Agent
  import Sorting

  /** What a caller of request() gets back. */
  datatype Outcome =
    | Answered(payload: Payload)
    | AgentError(code: string, message: string, data: Payload)
    | LinkError(reason: string)

  datatype Future = Unset | Set(outcome: Outcome) | Cancelled

  /** Draining: the frame is being written. Waiting: in wait_for. TimedOut: the wait was cancelled
      for its time limit and the caller has not run yet. */
  datatype Caller = Draining | Waiting | TimedOut | Returned(outcome: Outcome)

  /** Idle: no reader task. Exiting: past EOF, waiting for the exit status. */
  datatype Reader = Idle | Reading | Exiting | Ended

  datatype Link = Link(
    running: bool,               // _proc is set
    closing: bool,               // close() is between its first and last line
    reader: Reader,
    exitError: Option<string>,   // _exit_error
    nextId: int,
    pending: set<int>,           // the keys of _pending
    futures: map<int, Future>,
    callers: map<int, Caller>)

  const NEW_LINK := Link(false, false, Idle, None, 1, {}, map[], map[])

  datatype Event =
    | Spawn                                  // start() up to the handshake
    | HandshakeRead                          // start() creates the reader
    | Ask                                    // request() up to its first await
    | Drained(id: int)
    | WriteFailed(id: int, reason: string)
    | Received(frame: Response)              // the reader decodes a frame
    | Eof
    | Exited(reason: string)                 // the exit status is classified
    | ReaderCrashed(reason: string)          // any other exception in the reader
    | TimerFired(id: int)                    // wait_for cancels the future
    | Resumed(id: int)                       // the caller runs again
    | CloseBegin
    | ReaderCancelled
    | CloseEnd

  // ---------- the steps ----------

  /** resp.error wins; a frame with neither part is an empty result. */
  function Settled(frame: Response): Outcome {
    match frame.error
    case Some(e) => AgentError(e.code, e.message, if e.data.Some? then e.data.value else map[])
    case None => Answered(if frame.result.Some? then frame.result.value else map[])
  }

  /** Why request() raises before it registers anything. */
  function Refuses(s: Link): Option<string> {
    if s.exitError.Some? then s.exitError
    else if !s.running then Some("transport not started")
    else None
  }

  function FailAll(s: Link, reason: string): Link {
    s.(futures := map id | id in s.futures ::
         if id in s.pending && s.futures[id].Unset? then Set(LinkError(reason)) else s.futures[id],
       pending := {})
  }

  predicate Has(s: Link, id: int, caller: Caller) {
    id in s.callers && id in s.futures && s.callers[id] == caller
  }

  predicate Enabled(s: Link, e: Event) {
    match e
    case Spawn => !s.running && !s.closing
    case HandshakeRead => s.running && s.reader.Idle?
    case Ask => true
    case Drained(id) => Has(s, id, Draining)
    case WriteFailed(id, _) => Has(s, id, Draining)
    case Received(_) => s.reader.Reading? && !s.closing
    case Eof => s.reader.Reading? && !s.closing
    case Exited(_) => s.reader.Exiting?
    case ReaderCrashed(_) => s.reader.Reading? && !s.closing
    case TimerFired(id) => Has(s, id, Waiting)
    case Resumed(id) => Has(s, id, TimedOut) || (Has(s, id, Waiting) && s.futures[id].Set?)
    case CloseBegin => s.running
    case ReaderCancelled => s.closing && (s.reader.Reading? || s.reader.Exiting?)
    case CloseEnd => s.closing && (s.reader.Idle? || s.reader.Ended?)
  }

  function Step(s: Link, e: Event): Link
    requires Enabled(s, e)
  {
    match e
    case Spawn => s.(running := true, exitError := None)
    case HandshakeRead => s.(reader := Reading)
    case Ask =>
      if Refuses(s).Some? then s
      else s.(nextId := s.nextId + 1, pending := s.pending + {s.nextId},
              futures := s.futures[s.nextId := Unset], callers := s.callers[s.nextId := Draining])
    case Drained(id) => s.(callers := s.callers[id := Waiting])
    case WriteFailed(id, reason) =>
      s.(pending := s.pending - {id}, callers := s.callers[id := Returned(LinkError(reason))])
    case Received(frame) =>
      var taken := s.(pending := s.pending - {frame.id});
      if frame.id in s.pending && frame.id in s.futures && s.futures[frame.id].Unset?
      then taken.(futures := s.futures[frame.id := Set(Settled(frame))])
      else taken
    case Eof => s.(reader := Exiting)
    case Exited(reason) => FailAll(s, reason).(exitError := Some(reason), reader := Ended)
    case ReaderCrashed(reason) => FailAll(s, reason).(reader := Ended)
    case TimerFired(id) =>
      s.(callers := s.callers[id := TimedOut],
         futures := if s.futures[id].Unset? then s.futures[id := Cancelled] else s.futures)
    case Resumed(id) =>
      if s.callers[id].TimedOut?
      then s.(pending := s.pending - {id}, callers := s.callers[id := Returned(LinkError("timed out"))])
      else s.(callers := s.callers[id := Returned(s.futures[id].outcome)])
    case CloseBegin => s.(running := false, closing := true)
    case ReaderCancelled =>
      if s.reader.Reading? then FailAll(s, "transport closed").(reader := Ended)
      else s.(reader := Ended)
    case CloseEnd => FailAll(s, "transport closed").(closing := false, reader := Idle)
  }

  predicate IsRun(s: Link, events: seq<Event>)
    decreases |events|
  {
    events == [] || (Enabled(s, events[0]) && IsRun(Step(s, events[0]), events[1..]))
  }

  function Run(s: Link, events: seq<Event>): Link
    requires IsRun(s, events)
    decreases |events|
  {
    if events == [] then s else Run(Step(s, events[0]), events[1..])
  }

  // ---------- the invariant ----------

  /** A caller that has not been told anything yet. */
  predicate Unanswered(s: Link, id: int) {
    id in s.callers && id in s.futures
    && (s.callers[id].Draining? || s.callers[id].Waiting?) && s.futures[id].Unset?
  }

  ghost predicate InvAt(s: Link, id: int) {
    && (id in s.callers <==> id in s.futures)
    && (id in s.pending ==> id in s.futures)
    && (id in s.futures && id in s.callers ==>
        var caller, future := s.callers[id], s.futures[id];
        && 1 <= id < s.nextId
        // No lost waiter: whoever still waits is in the table under its own id.
        && (Unanswered(s, id) ==> id in s.pending)
        // A settled future stays in the table only until its timed-out caller removes it.
        && (id in s.pending ==> future.Unset? || caller.TimedOut?)
        && (caller.TimedOut? ==> !future.Unset?)
        && (future.Cancelled? ==> caller.TimedOut? || caller.Returned?)
        // A caller that got an answer got what its own future was set to.
        && (caller.Returned? ==>
              id !in s.pending && (caller.outcome.LinkError? || future == Set(caller.outcome))))
  }

  ghost predicate Inv(s: Link) {
    && s.nextId >= 1
    && (forall id :: InvAt(s, id))
    && (s.exitError.Some? ==> s.pending == {})
    && (!s.running && !s.closing ==> s.pending == {})
    && (s.closing ==> !s.running)
    && Up(s)
  }

  /** A reader exists only while its process is set or being closed, and the exit error of a process
      is recorded only by its reader's end. */
  ghost predicate Up(s: Link) {
    && (!s.reader.Idle? ==> s.running || s.closing)
    && (s.running && (s.reader.Idle? || s.reader.Reading?) ==> s.exitError.None?)
  }

  lemma InvStep(s: Link, e: Event)
    requires Inv(s) && Enabled(s, e)
    ensures Inv(Step(s, e))
  {
    forall id ensures InvAt(Step(s, e), id) {
      InvAtStep(s, e, id);
    }
  }

  lemma InvAtStep(s: Link, e: Event, id: int)
    requires Inv(s) && Enabled(s, e)
    ensures InvAt(Step(s, e), id)
  {
    assert InvAt(s, id);
    assert InvAt(s, s.nextId);
  }

  /** Over every interleaving of requests, frames, timers, EOF and close. */
  lemma {:induction false} InvRun(s: Link, events: seq<Event>)
    requires Inv(s) && IsRun(s, events)
    ensures Inv(Run(s, events))
    decreases |events|
  {
    if events != [] {
      InvStep(s, events[0]);
      InvRun(Step(s, events[0]), events[1..]);
    }
  }

  // ---------- delivery ----------

  /** An id's future is settled at most once and what its caller was told stands. */
  ghost predicate Keeps(s: Link, t: Link, id: int) {
    id in s.futures && id in s.callers ==>
      && id in t.futures && id in t.callers
      && (!s.futures[id].Unset? ==> t.futures[id] == s.futures[id])
      && (s.callers[id].Returned? ==> t.callers[id] == s.callers[id])
  }

  lemma StepKeeps(s: Link, e: Event, id: int)
    requires Inv(s) && Enabled(s, e)
    ensures Keeps(s, Step(s, e), id)
    ensures s.nextId <= Step(s, e).nextId
  {
    assert InvAt(s, id);
    assert InvAt(s, s.nextId);
  }

  /** Ids are never reused, a future is settled at most once, and what a caller was told stands. */
  lemma {:induction false} SettledOnce(s: Link, events: seq<Event>, id: int)
    requires Inv(s) && IsRun(s, events)
    ensures Keeps(s, Run(s, events), id)
    ensures id in Run(s, events).futures && id !in s.futures ==> id >= s.nextId
    decreases |events|
  {
    if events != [] {
      var s1 := Step(s, events[0]);
      InvStep(s, events[0]);
      StepKeeps(s, events[0], id);
      assert InvAt(s, id) && InvAt(s1, id);
      SettledOnce(s1, events[1..], id);
    }
  }

  /** Event k delivers a frame with this id and outcome. */
  predicate Delivers(events: seq<Event>, k: nat, id: int, outcome: Outcome) {
    k < |events| && events[k].Received? && events[k].frame.id == id
    && Settled(events[k].frame) == outcome
  }

  lemma {:induction false} SetByFrame(s: Link, events: seq<Event>, id: int)
    requires Inv(s) && IsRun(s, events)
    requires var t := Run(s, events);
             id in t.futures && t.futures[id].Set? && !t.futures[id].outcome.LinkError?
    requires id in s.futures ==> s.futures[id].Unset?
    ensures exists k :: 0 <= k < |events| && Delivers(events, k, id, Run(s, events).futures[id].outcome)
    decreases |events|
  {
    if events != [] {
      var s1, rest := Step(s, events[0]), events[1..];
      var outcome := Run(s, events).futures[id].outcome;
      InvStep(s, events[0]);
      SettledOnce(s1, rest, id);
      assert InvAt(s1, id);
      if id in s1.futures && !s1.futures[id].Unset? {
        assert s1.futures[id] == Set(outcome);
        assert Delivers(events, 0, id, outcome);
      } else {
        SetByFrame(s1, rest, id);
        var k :| 0 <= k < |rest| && Delivers(rest, k, id, outcome);
        assert Delivers(events, k + 1, id, outcome);
      }
    }
  }

  /** Whatever payload or agent error a caller receives arrived in a frame carrying its own id. */
  lemma OwnAnswerOnly(events: seq<Event>, id: int, outcome: Outcome)
    requires IsRun(NEW_LINK, events)
    requires id in Run(NEW_LINK, events).callers
    requires Run(NEW_LINK, events).callers[id] == Returned(outcome) && !outcome.LinkError?
    ensures exists k :: 0 <= k < |events| && Delivers(events, k, id, outcome)
  {
    InvRun(NEW_LINK, events);
    assert InvAt(Run(NEW_LINK, events), id);
    SetByFrame(NEW_LINK, events, id);
  }

  /** A frame settles at most the future of its own id, and one whose caller has already been told
      something, timed out or never asked reaches nobody. */
  lemma LateFrameReachesNobody(s: Link, frame: Response)
    requires Inv(s) && Enabled(s, Received(frame))
    ensures var t := Step(s, Received(frame));
            && t.callers == s.callers
            && (forall id | id in s.futures && id != frame.id :: t.futures[id] == s.futures[id])
            && (t.futures == s.futures <==> !Unanswered(s, frame.id))
  {
    assert InvAt(s, frame.id);
    if Unanswered(s, frame.id) {
      assert Step(s, Received(frame)).futures[frame.id] == Set(Settled(frame));
    }
  }

  // ---------- no lost waiter ----------

  ghost predicate NobodyWaits(s: Link) {
    s.pending == {} && forall id :: !Unanswered(s, id)
  }

  predicate NoSpawn(events: seq<Event>) {
    forall k | 0 <= k < |events| :: !events[k].Spawn?
  }

  /** No reader runs, and none can be created before the next start. */
  predicate Down(s: Link) {
    (s.reader.Ended? || (s.reader.Idle? && !s.running)) && (s.closing ==> !s.running)
  }

  lemma {:induction false} StaysDown(s: Link, events: seq<Event>)
    requires IsRun(s, events) && NoSpawn(events) && Down(s)
    ensures var t := Run(s, events);
            && Down(t) && t.exitError == s.exitError
            && (!s.running ==> !t.running)
            && (!s.running && !s.closing ==> !t.closing)
    decreases |events|
  {
    if events != [] {
      assert forall k | 0 <= k < |events[1..]| :: events[1..][k] == events[k + 1];
      StaysDown(Step(s, events[0]), events[1..]);
    }
  }

  lemma EmptyTable(s: Link)
    requires Inv(s) && s.pending == {}
    ensures NobodyWaits(s)
  {
    forall id ensures !Unanswered(s, id) {
      assert InvAt(s, id);
    }
  }

  /** When the reader ends at EOF every waiter is failed with the classified error, and until the
      transport is started again every request raises that error at once and registers nothing. */
  lemma EofFailsEveryone(s: Link, reason: string, later: seq<Event>)
    requires Inv(s) && Enabled(s, Exited(reason))
    requires IsRun(Step(s, Exited(reason)), later) && NoSpawn(later)
    ensures var t := Step(s, Exited(reason));
            && NobodyWaits(t)
            && (forall id | Unanswered(s, id) :: t.futures[id] == Set(LinkError(reason)))
    ensures var u := Run(Step(s, Exited(reason)), later);
            Refuses(u) == Some(reason) && NobodyWaits(u) && Step(u, Ask) == u
  {
    var t := Step(s, Exited(reason));
    InvStep(s, Exited(reason));
    EmptyTable(t);
    forall id | Unanswered(s, id) ensures t.futures[id] == Set(LinkError(reason)) {
      assert InvAt(s, id);
    }
    StaysDown(t, later);
    InvRun(t, later);
    EmptyTable(Run(t, later));
  }

  /** When the close that tears the process down returns, the table is empty; every waiter has been
      failed, and every request is refused until the transport is started again. */
  lemma CloseFailsEveryone(s: Link, later: seq<Event>)
    requires Inv(s) && Enabled(s, CloseEnd)
    requires IsRun(Step(s, CloseEnd), later) && NoSpawn(later)
    ensures NobodyWaits(Step(s, CloseEnd))
    ensures var u := Run(Step(s, CloseEnd), later);
            Refuses(u).Some? && NobodyWaits(u) && Step(u, Ask) == u
  {
    var t := Step(s, CloseEnd);
    InvStep(s, CloseEnd);
    EmptyTable(t);
    StaysDown(t, later);
    InvRun(t, later);
    EmptyTable(Run(t, later));
  }

  /** A reader that dies of any other exception fails the waiters but never the requests that follow:
      each of them still registers. */
  lemma CrashKeepsAccepting(s: Link, reason: string)
    requires Inv(s) && Enabled(s, ReaderCrashed(reason))
    ensures var t := Step(s, ReaderCrashed(reason));
            && NobodyWaits(t)
            && Refuses(t).None? && Unanswered(Step(t, Ask), t.nextId)
  {
    InvStep(s, ReaderCrashed(reason));
    EmptyTable(Step(s, ReaderCrashed(reason)));
  }

  /** A fresh transport gets there. */
  lemma CrashReached(reason: string)
    ensures var events := [Spawn, HandshakeRead, ReaderCrashed(reason), Ask];
            && IsRun(NEW_LINK, events)
            && var t := Run(NEW_LINK, events);
               t.running && t.reader.Ended? && Unanswered(t, 1)
  {
    var events := [Spawn, HandshakeRead, ReaderCrashed(reason), Ask];
    assert events[1..] == [HandshakeRead, ReaderCrashed(reason), Ask];
    assert events[1..][1..] == [ReaderCrashed(reason), Ask];
    assert events[1..][1..][1..] == [Ask];
    assert [Ask][1..] == [];
    var begun := Step(Step(NEW_LINK, Spawn), HandshakeRead);
    var crashed := Step(begun, ReaderCrashed(reason));
    assert IsRun(crashed, [Ask]) && Run(crashed, [Ask]) == Step(crashed, Ask);
    assert IsRun(begun, events[1..][1..]) && Run(begun, events[1..][1..]) == Step(crashed, Ask);
  }

  /** Such a request is answered by nothing but its own timer, a failed write or a close. */
  lemma {:induction false} CrashedLinkHangs(s: Link, id: int, events: seq<Event>)
    requires Inv(s) && s.reader.Ended? && s.running && Unanswered(s, id)
    requires IsRun(s, events)
    requires forall k | 0 <= k < |events| ::
               !events[k].CloseBegin? && events[k] != TimerFired(id)
               && !(events[k].WriteFailed? && events[k].id == id)
    ensures Unanswered(Run(s, events), id)
    decreases |events|
  {
    if events != [] {
      assert InvAt(s, id) && InvAt(s, s.nextId);
      assert forall k | 0 <= k < |events[1..]| :: events[1..][k] == events[k + 1];
      InvStep(s, events[0]);
      CrashedLinkHangs(Step(s, events[0]), id, events[1..]);
    }
  }

  // ---------- the class ----------

  class SubprocessTransport {
    var running: bool
    var closing: bool
    var reader: Reader
    var exitError: Option<string>
    var nextId: int
    var pending: set<int>
    var futures: map<int, Future>
    var callers: map<int, Caller>

    ghost function View(): Link
      reads this
    {
      Link(running, closing, reader, exitError, nextId, pending, futures, callers)
    }

    constructor ()
      ensures View() == NEW_LINK
    {
      running, closing, reader, exitError := false, false, Idle, None;
      nextId, pending, futures, callers := 1, {}, map[], map[];
    }

    /** start() once the process is spawned; refused while the previous one is there. */
    method Spawned() returns (raised: Option<string>)
      requires !closing
      modifies this
      ensures raised.None? <==> !old(running)
      ensures View() == if raised.None? then Step(old(View()), Spawn) else old(View())
    {
      if running {
        return Some("transport already started");
      }
      running, exitError := true, None;
      return None;
    }

    /** The end of start(): the reader task is created. */
    method StartReader()
      requires Enabled(View(), HandshakeRead)
      modifies this
      ensures View() == Step(old(View()), HandshakeRead)
    {
      reader := Reading;
    }

    /** request() up to its first await: raises, or registers a fresh id and writes the frame. */
    method Begin(name: string, params: Payload) returns (raised: Option<string>, frame: Option<Request>)
      modifies this
      ensures View() == Step(old(View()), Ask)
      ensures raised == Refuses(old(View()))
      ensures frame == if raised.Some? then None else Some(Request(old(nextId), name, params))
    {
      if exitError.Some? {
        return exitError, None;
      }
      if !running {
        return Some("transport not started"), None;
      }
      var id := nextId;
      nextId := nextId + 1;
      pending, futures, callers := pending + {id}, futures[id := Unset], callers[id := Draining];
      return None, Some(Request(id, name, params));
    }

    /** The except branch around the write. */
    method WriteFailure(id: int, reason: string) returns (raised: Outcome)
      requires Enabled(View(), WriteFailed(id, reason))
      modifies this
      ensures View() == Step(old(View()), WriteFailed(id, reason)) && raised == LinkError(reason)
    {
      pending, callers := pending - {id}, callers[id := Returned(LinkError(reason))];
      return LinkError(reason);
    }

    /** The end of request(): the result of the future, or the timeout branch. */
    method Resume(id: int) returns (outcome: Outcome)
      requires Enabled(View(), Resumed(id))
      modifies this
      ensures View() == Step(old(View()), Resumed(id)) && callers[id] == Returned(outcome)
    {
      if callers[id].TimedOut? {
        pending, outcome := pending - {id}, LinkError("timed out");
      } else {
        outcome := futures[id].outcome;
      }
      callers := callers[id := Returned(outcome)];
    }

    /** One turn of the read loop on a decoded frame. */
    method OnFrame(frame: Response)
      requires Enabled(View(), Received(frame))
      modifies this
      ensures View() == Step(old(View()), Received(frame))
    {
      var found := frame.id in pending && frame.id in futures && futures[frame.id].Unset?;
      pending := pending - {frame.id};
      if !found {
        return;
      }
      if frame.error.Some? {
        var e := frame.error.value;
        futures := futures[frame.id :=
          Set(AgentError(e.code, e.message, if e.data.Some? then e.data.value else map[]))];
      } else {
        futures := futures[frame.id := Set(Answered(if frame.result.Some? then frame.result.value else map[]))];
      }
    }

    /** _fail_pending: every unsettled future in the table fails, then the table is cleared. */
    method FailPending(reason: string)
      requires pending <= futures.Keys
      modifies this`pending, this`futures
      ensures View() == FailAll(old(View()), reason)
    {
      var rest := pending;
      while rest != {}
        invariant rest <= pending == old(pending) && futures.Keys == old(futures).Keys
        invariant forall id | id in futures ::
          futures[id] == if id in pending - rest && old(futures)[id].Unset?
                         then Set(LinkError(reason)) else old(futures)[id]
        decreases rest
      {
        ghost var some := Sorting.Element(rest);
        var id :| id in rest;
        if futures[id].Unset? {
          futures := futures[id := Set(LinkError(reason))];
        }
        rest := rest - {id};
      }
      ghost var failed := FailAll(old(View()), reason).futures;
      assert futures.Keys == failed.Keys;
      assert rest == {};
      assert forall id | id in futures :: futures[id] == failed[id];
      pending := {};
    }

    /** The end of the read loop after EOF. */
    method OnExit(reason: string)
      requires Enabled(View(), Exited(reason)) && pending <= futures.Keys
      modifies this
      ensures View() == Step(old(View()), Exited(reason))
    {
      exitError := Some(reason);
      FailPending(reason);
      reader := Ended;
    }

    /** The read loop's branch for any other exception: the error is not recorded. */
    method OnCrash(reason: string)
      requires Enabled(View(), ReaderCrashed(reason)) && pending <= futures.Keys
      modifies this
      ensures View() == Step(old(View()), ReaderCrashed(reason))
    {
      FailPending(reason);
      reader := Ended;
    }

    /** close() cancels the reader: its own handler runs only before EOF. */
    method OnCancelled()
      requires Enabled(View(), ReaderCancelled) && pending <= futures.Keys
      modifies this
      ensures View() == Step(old(View()), ReaderCancelled)
    {
      if reader.Reading? {
        FailPending("transport closed");
      }
      reader := Ended;
    }

    /** The first and the last stretch of close(). */
    method BeginClose() returns (tearsDown: bool)
      modifies this
      ensures tearsDown == Enabled(old(View()), CloseBegin)
      ensures View() == if tearsDown then Step(old(View()), CloseBegin) else old(View())
    {
      if !running {
        return false;
      }
      running, closing := false, true;
      return true;
    }

    method EndClose()
      requires Enabled(View(), CloseEnd) && pending <= futures.Keys
      modifies this
      ensures View() == Step(old(View()), CloseEnd)
    {
      reader := Idle;
      FailPending("transport closed");
      closing := false;
    }
  }
}
