/**
 What the transport's parties can always do: a caller whose answer is there returns it, one whose time
 is up returns the timeout, and a start, an end of file and a close run to their ends. The safety
 results say what callers are told; these say that they are told.
 */
module TransportProgress {
  import opened Wrappers
  import opened Agent
  import opened Transport

  lemma RunCons(s: Link, e: Event, rest: seq<Event>)
    requires Enabled(s, e) && IsRun(Step(s, e), rest)
    ensures IsRun(s, [e] + rest) && Run(s, [e] + rest) == Run(Step(s, e), rest)
  {
    assert ([e] + rest)[1..] == rest;
  }

  lemma RunOne(s: Link, e: Event)
    requires Enabled(s, e)
    ensures IsRun(s, [e]) && Run(s, [e]) == Step(s, e)
  {
    assert [e][1..] == [];
  }

  // ---------- callers ----------

  /** The moves a caller has left when its answer is there. */
  function OwnMoves(s: Link, id: int): seq<Event>
    requires id in s.callers
  {
    match s.callers[id]
    case Draining => [Drained(id)] + [Resumed(id)]
    case Returned(_) => []
    case _ => [Resumed(id)]
  }

  /** Nothing but this caller changed between s and t. */
  ghost predicate OnlyCaller(s: Link, t: Link, id: int) {
    t == s.(callers := t.callers) && t.callers.Keys == s.callers.Keys
    && forall other | other in s.callers && other != id :: t.callers[other] == s.callers[other]
  }

  /** A caller whose future is set returns its outcome by its own moves. */
  lemma SettledCallerReturns(s: Link, id: int)
    requires Inv(s) && id in s.callers && id in s.futures && s.futures[id].Set?
    requires s.callers[id].Draining? || s.callers[id].Waiting?
    ensures IsRun(s, OwnMoves(s, id))
    ensures var t := Run(s, OwnMoves(s, id));
            OnlyCaller(s, t, id) && t.callers[id] == Returned(s.futures[id].outcome)
  {
    if s.callers[id].Draining? {
      var drained := Step(s, Drained(id));
      assert drained.callers[id] == Waiting;
      RunOne(drained, Resumed(id));
      RunCons(s, Drained(id), [Resumed(id)]);
    } else {
      RunOne(s, Resumed(id));
    }
  }

  /** A waiting caller can always time out: it then returns the timeout, whatever its future is, and
      leaves the table; nobody else notices. */
  lemma WaitingCallerTimesOut(s: Link, id: int)
    requires Inv(s) && Has(s, id, Waiting)
    ensures IsRun(s, [TimerFired(id)] + [Resumed(id)])
    ensures var t := Run(s, [TimerFired(id)] + [Resumed(id)]);
            && t.callers == s.callers[id := Returned(LinkError("timed out"))]
            && t.pending == s.pending - {id}
            && (forall other | other in s.futures && other != id ::
                  other in t.futures && t.futures[other] == s.futures[other])
  {
    RunOne(Step(s, TimerFired(id)), Resumed(id));
    RunCons(s, TimerFired(id), [Resumed(id)]);
  }

  /** A write that fails ends the request at once, and no frame can reach it any more. */
  lemma FailedWriteReturns(s: Link, id: int, reason: string)
    requires Inv(s) && Has(s, id, Draining)
    ensures var t := Step(s, WriteFailed(id, reason));
            t.callers == s.callers[id := Returned(LinkError(reason))] && t.pending == s.pending - {id}
            && t.futures == s.futures
  {
  }

  /** A request on a live link that is written and answered returns the frame's error if it has one,
      else its result, else an empty one. */
  lemma RequestReturns(s: Link, frame: Response)
    requires Inv(s) && Refuses(s).None? && s.reader.Reading? && !s.closing && frame.id == s.nextId
    ensures var id := s.nextId;
            var events := [Ask] + ([Drained(id)] + ([Received(frame)] + [Resumed(id)]));
            && IsRun(s, events)
            && var t := Run(s, events);
               && id in t.callers && id !in t.pending && t.nextId == id + 1
               && (forall e | frame.error == Some(e) && e.data.None? ::
                     t.callers[id] == Returned(AgentError(e.code, e.message, map[])))
               && (forall e, d | frame.error == Some(e) && e.data == Some(d) ::
                     t.callers[id] == Returned(AgentError(e.code, e.message, d)))
               && (forall r | frame.error.None? && frame.result == Some(r) ::
                     t.callers[id] == Returned(Answered(r)))
               && (frame.error.None? && frame.result.None? ==>
                     t.callers[id] == Returned(Answered(map[])))
  {
    var id := s.nextId;
    var asked := Step(s, Ask);
    var drained := Step(asked, Drained(id));
    var answered := Step(drained, Received(frame));
    assert answered.futures[id] == Set(Settled(frame));
    RunOne(answered, Resumed(id));
    RunCons(drained, Received(frame), [Resumed(id)]);
    RunCons(asked, Drained(id), [Received(frame)] + [Resumed(id)]);
    RunCons(s, Ask, [Drained(id)] + ([Received(frame)] + [Resumed(id)]));
  }

  // ---------- start, end of file, close ----------

  /** A transport that is down starts: requests are accepted, a reader runs, and what earlier callers
      were told stands. */
  lemma StartCompletes(s: Link)
    requires Inv(s) && !s.running && !s.closing
    ensures IsRun(s, [Spawn] + [HandshakeRead])
    ensures var t := Run(s, [Spawn] + [HandshakeRead]);
            t.reader.Reading? && !t.closing && Refuses(t).None?
            && t.callers == s.callers && t.futures == s.futures && t.nextId == s.nextId
  {
    RunOne(Step(s, Spawn), HandshakeRead);
    RunCons(s, Spawn, [HandshakeRead]);
  }

  /** The end of stdout and the exit status end the reader, with that error for every waiter and every
      later request. */
  lemma EofCompletes(s: Link, reason: string)
    requires Inv(s) && s.reader.Reading? && !s.closing
    ensures IsRun(s, [Eof] + [Exited(reason)])
    ensures var t := Run(s, [Eof] + [Exited(reason)]);
            t.reader.Ended? && Refuses(t) == Some(reason) && NobodyWaits(t)
            && forall id | Unanswered(s, id) ::
                 id in t.futures && t.futures[id] == Set(LinkError(reason))
  {
    var read := Step(s, Eof);
    InvStep(s, Eof);
    assert forall id :: Unanswered(read, id) <==> Unanswered(s, id);
    RunOne(read, Exited(reason));
    RunCons(s, Eof, [Exited(reason)]);
    assert IsRun(Step(read, Exited(reason)), []);
    EofFailsEveryone(read, reason, []);
  }

  function CloseMoves(s: Link): seq<Event> {
    [CloseBegin]
    + ((if s.reader.Reading? || s.reader.Exiting? then [ReaderCancelled] else []) + [CloseEnd])
  }

  lemma CloseEnds(s: Link)
    requires Inv(s) && Enabled(s, CloseEnd)
    ensures IsRun(s, [CloseEnd])
    ensures var t := Run(s, [CloseEnd]);
            !t.running && !t.closing && t.reader.Idle? && NobodyWaits(t)
    ensures forall id | Unanswered(s, id) ::
              Run(s, [CloseEnd]).futures[id] == Set(LinkError("transport closed"))
  {
    RunOne(s, CloseEnd);
    assert IsRun(Step(s, CloseEnd), []);
    CloseFailsEveryone(s, []);
    forall id | Unanswered(s, id)
      ensures Step(s, CloseEnd).futures[id] == Set(LinkError("transport closed"))
    {
      assert InvAt(s, id);
    }
  }

  /** A close runs to its end from any state of a running transport, and every waiter is told. */
  lemma CloseCompletes(s: Link)
    requires Inv(s) && s.running
    ensures IsRun(s, CloseMoves(s))
    ensures var t := Run(s, CloseMoves(s));
            !t.running && !t.closing && t.reader.Idle? && NobodyWaits(t) && t.callers == s.callers
    ensures forall id | Unanswered(s, id) ::
              id in Run(s, CloseMoves(s)).futures
              && Run(s, CloseMoves(s)).futures[id] == Set(LinkError("transport closed"))
  {
    var begun := Step(s, CloseBegin);
    InvStep(s, CloseBegin);
    assert forall id :: Unanswered(begun, id) <==> Unanswered(s, id);
    if s.reader.Reading? || s.reader.Exiting? {
      var cancelled := Step(begun, ReaderCancelled);
      InvStep(begun, ReaderCancelled);
      CloseEnds(cancelled);
      CancelKeepsTold(begun);
      RunOne(cancelled, CloseEnd);
      RunCons(begun, ReaderCancelled, [CloseEnd]);
      RunCons(s, CloseBegin, [ReaderCancelled] + [CloseEnd]);
      forall id | Unanswered(s, id)
        ensures Step(cancelled, CloseEnd).futures[id] == Set(LinkError("transport closed"))
      {
        assert InvAt(s, id) && InvAt(cancelled, id);
      }
    } else {
      CloseEnds(begun);
      RunOne(begun, CloseEnd);
      assert [] + [CloseEnd] == [CloseEnd];
      RunCons(s, CloseBegin, [CloseEnd]);
    }
  }

  /** A close that cancels a reader before EOF fails the waiters at once, not only at its end. */
  lemma CancelFailsAtOnce(s: Link)
    requires Inv(s) && Enabled(s, ReaderCancelled) && s.reader.Reading?
    ensures var t := Step(s, ReaderCancelled);
            && NobodyWaits(t) && t.callers == s.callers
            && forall id | Unanswered(s, id) ::
                 id in t.futures && t.futures[id] == Set(LinkError("transport closed"))
  {
    InvStep(s, ReaderCancelled);
    EmptyTable(Step(s, ReaderCancelled));
    forall id | Unanswered(s, id)
      ensures id in s.futures && id in s.pending
    {
      assert InvAt(s, id);
    }
  }

  /** However the reader or the transport ends, only futures in the table are failed. */
  lemma OnlyTableFails(s: Link, e: Event, id: int)
    requires Inv(s) && Enabled(s, e)
    requires e.Exited? || e.ReaderCrashed? || e.ReaderCancelled? || e.CloseEnd?
    requires id in s.futures && id !in s.pending
    ensures id in Step(s, e).futures && Step(s, e).futures[id] == s.futures[id]
  {
  }

  /** Cancelling the reader tells a waiter that the transport was closed, or nothing yet. */
  lemma CancelKeepsTold(s: Link)
    requires Inv(s) && Enabled(s, ReaderCancelled)
    ensures var t := Step(s, ReaderCancelled);
            forall id | Unanswered(s, id) ::
              id in t.futures && (Unanswered(t, id) || t.futures[id] == Set(LinkError("transport closed")))
  {
    forall id | Unanswered(s, id)
      ensures var t := Step(s, ReaderCancelled);
              id in t.futures
              && (Unanswered(t, id) || t.futures[id] == Set(LinkError("transport closed")))
    {
      assert InvAt(s, id);
    }
  }
}
