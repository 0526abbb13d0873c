/** Many callers, one subprocess: the dispatcher as a step system. One step is one
    critical section, one channel operation or one event outside the process. */
module IpcProtocol {
  import opened Wrappers
  import opened IpcDispatcher

  /** What the child can put on stdout. */
  datatype Line = EmptyLine | MalformedLine | ReplyLine(resp: Response)

  datatype Cause =
    | Refused(error: RegisterError)
    | DispatcherClosed | WriteFailure | WriteDeadline
    | Canceled | CallDeadline | IdMismatch
    | StartupAbandoned | StartupRefused

  datatype Outcome = Success(resp: Response) | Failure(cause: Cause)

  /** Where a SendRequest call is: registered, inside its write, waiting on its
      channel, about to deregister, or returned. */
  datatype Phase = Registered | Writing | Waiting | Leaving(cause: Cause) | Done(outcome: Outcome)

  /** One message put on a reply channel; `line` is the stdout line it came from, if any. */
  datatype Delivery = Delivery(resp: Response, line: Option<nat>)

  /** Call `i` owns channel `i`. `since` counts the lines read before the call
      registered and `log` is the history of its channel. */
  datatype Call = Call(id: string, since: nat, phase: Phase, log: seq<Delivery>)

  datatype Demux =
    | Scanning
    | Holding(ch: nat, resp: Response, line: nat, bare: bool)
    | Resetting(reason: string)
    | Exiting | Drained | Exited

  datatype Closer = NotClosing | Closing | Closed

  datatype State = State(
    core: Core,
    calls: seq<Call>,
    demux: Demux,
    closer: Closer,
    repeatedCloseReturned: bool,
    lines: seq<Line>)

  const INIT := State(
    Core(map[STARTUP := 0], [[]], false, true, None),
    [Call(STARTUP, 0, Registered, [])],
    Scanning, NotClosing, false, [])

  datatype Step =
    | Start(id: string)
    | BeginWrite(c: nat) | WriteDone(c: nat) | WriteFails(c: nat) | WriteTimesOut(c: nat) | WriteCanceled(c: nat)
    | Receive(c: nat) | Timeout(c: nat) | Cancel(c: nat) | Leave(c: nat) | AbandonStartup
    | ReadLine(line: Line) | DeliverHeld | DemuxReset | EndOfOutput | DemuxCleanup | DemuxExit
    | Close | CloseReturns

  predicate InFlight(c: Call) {
    !c.phase.Done?
  }

  /** A call that has neither returned nor decided to give up. */
  predicate Live(c: Call) {
    c.phase.Registered? || c.phase.Writing? || c.phase.Waiting?
  }

  /** The caller's side of the contract: a request id is unique among the calls in
      flight, and is not the startup correlation. */
  ghost predicate FreshId(s: State, id: string) {
    id != STARTUP && forall i :: 0 < i < |s.calls| && InFlight(s.calls[i]) ==> s.calls[i].id != id
  }

  predicate InPhase(s: State, c: nat, p: Phase) {
    c < |s.calls| && s.calls[c].phase == p
  }

  ghost predicate Enabled(s: State, step: Step) {
    match step
    case Start(id) => FreshId(s, id)
    case BeginWrite(c) => InPhase(s, c, Registered)
    case WriteDone(c) => InPhase(s, c, Writing)
    case WriteFails(c) => InPhase(s, c, Writing)
    case WriteTimesOut(c) => InPhase(s, c, Writing)
    case WriteCanceled(c) => 0 < c && InPhase(s, c, Writing)
    case Receive(c) => InPhase(s, c, Waiting) && c < |s.core.chans| && s.core.chans[c] != []
    case Timeout(c) => 0 < c && InPhase(s, c, Waiting)
    case Cancel(c) => 0 < c && InPhase(s, c, Waiting)
    case Leave(c) => 0 < c < |s.calls| && s.calls[c].phase.Leaving?
    case AbandonStartup => 0 < |s.calls| && Live(s.calls[0])
    case ReadLine(_) => s.demux.Scanning?
    case DeliverHeld => SendReady(s)
    case DemuxReset => s.demux.Resetting?
    case EndOfOutput => s.demux.Scanning?
    case DemuxCleanup => s.demux.Exiting?
    case DemuxExit => s.demux.Drained?
    case Close => true
    case CloseReturns => s.closer.Closing? && s.demux.Exited?
  }

  /** A bare send needs room in the channel; a guarded one is always ready. */
  predicate SendReady(s: State) {
    && s.demux.Holding?
    && s.demux.ch < |s.core.chans| && s.demux.ch < |s.calls|
    && (s.demux.bare ==> s.core.chans[s.demux.ch] == [])
  }

  function WithPhase(s: State, c: nat, p: Phase): State
    requires c < |s.calls|
  {
    s.(calls := s.calls[c := s.calls[c].(phase := p)])
  }

  /** The dispatcher's drain, recorded in the history of every channel it reaches. */
  function Drain(s: State, reply: Response, reason: string): State {
    s.(core := DrainCore(s.core, reply, reason),
       calls := seq(|s.calls|, i requires 0 <= i < |s.calls| =>
         if i in s.core.pending.Values && i < |s.core.chans| && s.core.chans[i] == []
         then s.calls[i].(log := s.calls[i].log + [Delivery(reply, None)])
         else s.calls[i]))
  }

  function Read(s: State, line: Line): State {
    var s1 := s.(lines := s.lines + [line]);
    match line
    case EmptyLine => s1
    case MalformedLine => s1.(demux := Resetting("malformed response"))
    case ReplyLine(resp) =>
      var (core, route) := RouteCore(s.core, resp);
      var s2 := s1.(core := core);
      match route
      case ToChannel(ch, bare) => s2.(demux := Holding(ch, resp, |s.lines|, bare))
      case Drop => s2
      case Unsynchronized => s2.(demux := Resetting("response missing request_id"))
  }

  function Deliver(s: State): State
    requires SendReady(s)
  {
    var Holding(ch, resp, line, _) := s.demux;
    var s1 := s.(demux := Scanning, core := SendCore(s.core, ch, resp));
    if s.core.chans[ch] != [] then s1
    else s1.(calls := s.calls[ch := s.calls[ch].(log := s.calls[ch].log + [Delivery(resp, Some(line))])])
  }

  /** What the select in SendRequest makes of a received message; the startup caller
      checks the status instead of the id. */
  function Judge(c: nat, id: string, resp: Response): Outcome {
    if c == 0 then
      if resp.status == "ready" then Success(resp) else Failure(StartupRefused)
    else if resp.requestId != id && resp.requestId != STARTUP then Failure(IdMismatch)
    else Success(resp)
  }

  function Take(s: State, c: nat): State
    requires c < |s.calls| && c < |s.core.chans| && s.core.chans[c] != []
  {
    WithPhase(s, c, Done(Judge(c, s.calls[c].id, s.core.chans[c][0])))
      .(core := s.core.(chans := s.core.chans[c := s.core.chans[c][1..]]))
  }

  function Quit(c: nat, cause: Cause): Phase {
    if c == 0 then Done(Failure(cause)) else Leaving(cause)
  }

  function Begin(s: State, id: string): State {
    var (core, err) := RegisterCore(s.core, id);
    s.(core := core,
       calls := s.calls + [Call(id, |s.lines|, if err.None? then Registered else Done(Failure(Refused(err.value))), [])])
  }

  function Apply(s: State, step: Step): State
    requires Enabled(s, step)
  {
    match step
    case Start(id) => Begin(s, id)
    case BeginWrite(c) =>
      WithPhase(s, c, if s.core.closed || !s.core.stdinOpen then Quit(c, DispatcherClosed) else Writing)
    case WriteDone(c) => WithPhase(s, c, Waiting)
    case WriteFails(c) => Drain(WithPhase(s, c, Quit(c, WriteFailure)), RESET_REPLY, "write")
    case WriteTimesOut(c) => Drain(WithPhase(s, c, Quit(c, WriteDeadline)), RESET_REPLY, "stdin write deadline")
    case WriteCanceled(c) => WithPhase(s, c, Leaving(Canceled))
    case Receive(c) => Take(s, c)
    case Timeout(c) => WithPhase(s, c, Leaving(CallDeadline))
    case Cancel(c) => WithPhase(s, c, Leaving(Canceled))
    case Leave(c) =>
      WithPhase(s, c, Done(Failure(s.calls[c].phase.cause))).(core := DeregisterCore(s.core, s.calls[c].id))
    case AbandonStartup => WithPhase(s, 0, Done(Failure(StartupAbandoned)))
    case ReadLine(line) => Read(s, line)
    case DeliverHeld => Deliver(s)
    case DemuxReset => Drain(s, RESET_REPLY, s.demux.reason).(demux := Exiting)
    case EndOfOutput => s.(demux := Exiting)
    case DemuxCleanup => Drain(s, TERMINATED_REPLY, "subprocess closed stdout").(demux := Drained)
    case DemuxExit => s.(demux := Exited)
    case Close =>
      if s.core.closed then s.(repeatedCloseReturned := true)
      else s.(core := CloseCore(s.core), closer := Closing)
    case CloseReturns => s.(closer := Closed)
  }

  /** `t` is reached from `s` by the given steps, in order. */
  ghost predicate Reaches(s: State, steps: seq<Step>, t: State)
    decreases |steps|
  {
    if steps == [] then s == t
    else Enabled(s, steps[0]) && Reaches(Apply(s, steps[0]), steps[1..], t)
  }

  // ---------------------------------------------------------------- invariant

  predicate PendingFor(s: State, i: nat) {
    i < |s.calls| && s.calls[i].id in s.core.pending && s.core.pending[s.calls[i].id] == i
  }

  predicate HeldFor(s: State, i: nat) {
    s.demux.Holding? && s.demux.ch == i
  }

  /** A message from the child was read after its receiver registered and carries the
      receiver's id (or none, for the startup envelope); any other message is a reset. */
  predicate Genuine(lines: seq<Line>, i: nat, c: Call, d: Delivery) {
    if d.line.None? then d.resp == RESET_REPLY || d.resp == TERMINATED_REPLY
    else
      && c.since <= d.line.value < |lines|
      && lines[d.line.value] == ReplyLine(d.resp)
      && (d.resp.requestId == c.id || (i == 0 && d.resp.requestId == ""))
  }

  /** A channel gets at most one message, genuine, and holds it until its owner takes
      it; a live call has its message or is still owed it; a success is its message. */
  ghost predicate CallOk(s: State, i: nat)
    requires i < |s.calls| == |s.core.chans|
  {
    var c, ch := s.calls[i], s.core.chans[i];
    && (c.id == STARTUP <==> i == 0)
    && c.since <= |s.lines|
    && |c.log| <= 1
    && (ch == [] || (c.log != [] && ch == [c.log[0].resp]))
    && (Live(c) ==> |ch| == |c.log| && (PendingFor(s, i) || HeldFor(s, i) || c.log != []))
    && (c.log != [] ==> Genuine(s.lines, i, c, c.log[0]))
    && (c.phase.Done? && c.phase.outcome.Success? ==>
          && c.log != [] && c.phase.outcome.resp == c.log[0].resp
          && (0 < i ==> c.log[0].resp.requestId == c.id))
  }

  /** Two in-flight calls have different ids, and no line reaches two channels. */
  ghost predicate PairOk(s: State, i: nat, j: nat)
    requires i < |s.calls| && j < |s.calls|
  {
    && (0 < i && 0 < j && InFlight(s.calls[i]) && InFlight(s.calls[j]) ==> s.calls[i].id != s.calls[j].id)
    && (s.calls[i].log != [] && s.calls[j].log != [] && s.calls[i].log[0].line.Some? ==>
          s.calls[i].log[0].line != s.calls[j].log[0].line)
  }

  /** A pending entry names the still empty channel of an in-flight call with that id. */
  ghost predicate EntryOk(s: State, id: string)
    requires id in s.core.pending
  {
    var i := s.core.pending[id];
    && i < |s.calls| && s.calls[i].id == id && s.calls[i].log == []
    && (0 < i ==> InFlight(s.calls[i]))
  }

  /** A reply that has left the map but has not been sent yet. */
  ghost predicate HeldOk(s: State) {
    s.demux.Holding? ==>
      var Holding(ch, resp, line, bare) := s.demux;
      && ch < |s.calls| && s.calls[ch].log == [] && !PendingFor(s, ch)
      && (bare ==> ch == 0)
      && Genuine(s.lines, ch, s.calls[ch], Delivery(resp, Some(line)))
      && forall i {:trigger s.calls[i]} :: 0 <= i < |s.calls| && s.calls[i].log != [] ==> s.calls[i].log[0].line != Some(line)
  }

  /** A failed reader leaves nobody pending, and a reader that has cleaned up has failed. */
  ghost predicate ReaderOk(s: State) {
    && (s.core.demuxErr.Some? ==> s.core.pending == map[])
    && (s.demux.Drained? || s.demux.Exited? ==> s.core.demuxErr.Some?)
    && (s.closer.Closed? ==> s.demux.Exited?)
    && (s.core.closed <==> !s.closer.NotClosing?)
    && (s.core.closed <==> !s.core.stdinOpen)
    && (s.repeatedCloseReturned ==> s.core.closed)
  }

  ghost predicate Inv(s: State) {
    && |s.core.chans| == |s.calls| && 0 < |s.calls|
    && HeldOk(s) && ReaderOk(s)
    && (forall i {:trigger CallOk(s, i)} :: 0 <= i < |s.calls| ==> CallOk(s, i))
    && (forall i, j {:trigger PairOk(s, i, j)} :: 0 <= i < j < |s.calls| ==> PairOk(s, i, j))
    && (forall id {:trigger EntryOk(s, id)} :: id in s.core.pending ==> EntryOk(s, id))
  }

  /** What a step must show to keep the invariant, one call and one pair at a time. */
  lemma PhaseKeepsInv(s: State, c: nat, p: Phase)
    requires Inv(s) && c < |s.calls| && InFlight(s.calls[c])
    requires p.Registered? || p.Writing? || p.Waiting? ==> Live(s.calls[c])
    requires p.Done? ==> c == 0 && p.outcome.Failure?
    ensures Inv(WithPhase(s, c, p))
  {
    var t := WithPhase(s, c, p);
    forall i | 0 <= i < |t.calls| ensures CallOk(t, i) {
      assert CallOk(s, i);
    }
    forall i, j | 0 <= i < j < |t.calls| ensures PairOk(t, i, j) {
      assert PairOk(s, i, j);
    }
    forall id | id in t.core.pending ensures EntryOk(t, id) {
      assert EntryOk(s, id);
    }
  }

  lemma DrainedCall(s: State, reply: Response, reason: string, i: nat)
    requires Inv(s) && i < |s.calls|
    ensures var t := Drain(s, reply, reason);
            if PendingFor(s, i)
            then t.calls[i] == s.calls[i].(log := [Delivery(reply, None)]) && t.core.chans[i] == [reply] && s.calls[i].log == []
            else t.calls[i] == s.calls[i] && t.core.chans[i] == s.core.chans[i]
  {
    assert CallOk(s, i);
    if i in s.core.pending.Values {
      var id :| id in s.core.pending && s.core.pending[id] == i;
      assert EntryOk(s, id);
    }
  }

  lemma DrainKeepsInv(s: State, reply: Response, reason: string)
    requires Inv(s) && (reply == RESET_REPLY || reply == TERMINATED_REPLY)
    ensures var t := Drain(s, reply, reason);
            Inv(t) && t.demux == s.demux && t.core.demuxErr.Some?
  {
    var t := Drain(s, reply, reason);
    forall i | 0 <= i < |t.calls| ensures CallOk(t, i) {
      assert CallOk(s, i);
      DrainedCall(s, reply, reason, i);
    }
    forall i, j | 0 <= i < j < |t.calls| ensures PairOk(t, i, j) {
      assert PairOk(s, i, j);
      DrainedCall(s, reply, reason, i);
      DrainedCall(s, reply, reason, j);
    }
    assert HeldOk(t) by {
      forall i | 0 <= i < |t.calls|
        ensures t.calls[i] == s.calls[i] || t.calls[i].log == [Delivery(reply, None)]
      {
        DrainedCall(s, reply, reason, i);
      }
      if s.demux.Holding? {
        DrainedCall(s, reply, reason, s.demux.ch);
      }
    }
  }

  lemma BeginKeepsInv(s: State, id: string)
    requires Inv(s) && FreshId(s, id)
    ensures Inv(Begin(s, id))
  {
    var t := Begin(s, id);
    var n := |s.calls|;
    forall i | 0 <= i < |t.calls| ensures CallOk(t, i) {
      if i < n {
        assert CallOk(s, i);
        assert t.calls[i] == s.calls[i];
      }
    }
    forall i, j | 0 <= i < j < |t.calls| ensures PairOk(t, i, j) {
      assert t.calls[i] == s.calls[i];
      if j < n {
        assert PairOk(s, i, j);
      }
    }
    forall other | other in t.core.pending ensures EntryOk(t, other) {
      if other in s.core.pending && other != id {
        assert EntryOk(s, other);
      }
    }
    assert HeldOk(t) by {
      if s.demux.Holding? {
        assert t.calls[s.demux.ch] == s.calls[s.demux.ch];
      }
    }
  }

  lemma TakeKeepsInv(s: State, c: nat)
    requires Inv(s) && c < |s.calls| && s.calls[c].phase.Waiting? && s.core.chans[c] != []
    ensures Inv(Take(s, c))
  {
    var t := Take(s, c);
    assert CallOk(s, c);
    forall i | 0 <= i < |t.calls| ensures CallOk(t, i) {
      assert CallOk(s, i);
    }
    forall i, j | 0 <= i < j < |t.calls| ensures PairOk(t, i, j) {
      assert PairOk(s, i, j);
    }
    forall id | id in t.core.pending ensures EntryOk(t, id) {
      assert EntryOk(s, id);
    }
  }

  lemma LeaveKeepsInv(s: State, c: nat)
    requires Inv(s) && 0 < c < |s.calls| && s.calls[c].phase.Leaving?
    ensures Inv(Apply(s, Leave(c)))
  {
    var t := Apply(s, Leave(c));
    forall i | 0 <= i < |t.calls| ensures CallOk(t, i) {
      assert CallOk(s, i);
      assert CallOk(s, c);
      if Live(s.calls[i]) && 0 < i && i != c {
        assert PairOk(s, if i < c then i else c, if i < c then c else i);
      }
    }
    forall i, j | 0 <= i < j < |t.calls| ensures PairOk(t, i, j) {
      assert PairOk(s, i, j);
    }
    forall id | id in t.core.pending ensures EntryOk(t, id) {
      assert EntryOk(s, id);
    }
  }

  lemma LineKeepsInv(s: State, line: Line, next: Demux)
    requires Inv(s) && s.demux.Scanning? && (next.Scanning? || next.Resetting?)
    ensures Inv(s.(lines := s.lines + [line], demux := next))
  {
    var t := s.(lines := s.lines + [line], demux := next);
    forall i | 0 <= i < |t.calls| ensures CallOk(t, i) {
      assert CallOk(s, i);
    }
    forall i, j | 0 <= i < j < |t.calls| ensures PairOk(t, i, j) {
      assert PairOk(s, i, j);
    }
    forall id | id in t.core.pending ensures EntryOk(t, id) {
      assert EntryOk(s, id);
    }
  }

  /** The entry leaves the map and its call becomes the one the reader holds a reply for. */
  lemma LookupKeepsInv(s: State, id: string, resp: Response, bare: bool)
    requires Inv(s) && s.demux.Scanning? && id in s.core.pending
    requires bare <==> resp.requestId == ""
    requires id == if bare then STARTUP else resp.requestId
    ensures Inv(s.(lines := s.lines + [ReplyLine(resp)],
                   core := DeregisterCore(s.core, id),
                   demux := Holding(s.core.pending[id], resp, |s.lines|, bare)))
  {
    var ch := s.core.pending[id];
    var t := s.(lines := s.lines + [ReplyLine(resp)], core := DeregisterCore(s.core, id),
                demux := Holding(ch, resp, |s.lines|, bare));
    assert EntryOk(s, id);
    assert CallOk(s, ch);
    forall i | 0 <= i < |t.calls| ensures CallOk(t, i) {
      assert CallOk(s, i);
    }
    forall i, j | 0 <= i < j < |t.calls| ensures PairOk(t, i, j) {
      assert PairOk(s, i, j);
    }
    forall other | other in t.core.pending ensures EntryOk(t, other) {
      assert EntryOk(s, other);
    }
    forall i | 0 <= i < |s.calls| && s.calls[i].log != []
      ensures s.calls[i].log[0].line != Some(|s.lines|)
    {
      assert CallOk(s, i);
    }
  }

  lemma ReadKeepsInv(s: State, line: Line)
    requires Inv(s) && s.demux.Scanning?
    ensures Inv(Read(s, line))
  {
    match line
    case EmptyLine => LineKeepsInv(s, line, Scanning);
    case MalformedLine => LineKeepsInv(s, line, Resetting("malformed response"));
    case ReplyLine(resp) =>
      match RouteCore(s.core, resp).1
      case ToChannel(ch, bare) => LookupKeepsInv(s, if bare then STARTUP else resp.requestId, resp, bare);
      case Drop => LineKeepsInv(s, line, Scanning);
      case Unsynchronized => LineKeepsInv(s, line, Resetting("response missing request_id"));
  }

  lemma DeliverKeepsInv(s: State)
    requires Inv(s) && s.demux.Holding?
    ensures SendReady(s) && s.core.chans[s.demux.ch] == [] && Inv(Deliver(s))
  {
    var ch := s.demux.ch;
    assert CallOk(s, ch);
    var t := Deliver(s);
    forall i | 0 <= i < |t.calls| ensures CallOk(t, i) {
      assert CallOk(s, i);
    }
    forall i, j | 0 <= i < j < |t.calls| ensures PairOk(t, i, j) {
      assert PairOk(s, i, j);
    }
    forall id | id in t.core.pending ensures EntryOk(t, id) {
      assert EntryOk(s, id);
    }
  }

  /** Every step keeps the invariant. */
  lemma StepKeepsInv(s: State, step: Step)
    requires Inv(s) && Enabled(s, step)
    ensures Inv(Apply(s, step))
  {
    match step
    case Start(id) => BeginKeepsInv(s, id);
    case BeginWrite(c) =>
      PhaseKeepsInv(s, c, if s.core.closed || !s.core.stdinOpen then Quit(c, DispatcherClosed) else Writing);
    case WriteDone(c) => PhaseKeepsInv(s, c, Waiting);
    case WriteFails(c) =>
      PhaseKeepsInv(s, c, Quit(c, WriteFailure));
      DrainKeepsInv(WithPhase(s, c, Quit(c, WriteFailure)), RESET_REPLY, "write");
    case WriteTimesOut(c) =>
      PhaseKeepsInv(s, c, Quit(c, WriteDeadline));
      DrainKeepsInv(WithPhase(s, c, Quit(c, WriteDeadline)), RESET_REPLY, "stdin write deadline");
    case WriteCanceled(c) => PhaseKeepsInv(s, c, Leaving(Canceled));
    case Receive(c) => TakeKeepsInv(s, c);
    case Timeout(c) => PhaseKeepsInv(s, c, Leaving(CallDeadline));
    case Cancel(c) => PhaseKeepsInv(s, c, Leaving(Canceled));
    case Leave(c) => LeaveKeepsInv(s, c);
    case AbandonStartup => PhaseKeepsInv(s, 0, Done(Failure(StartupAbandoned)));
    case ReadLine(line) => ReadKeepsInv(s, line);
    case DeliverHeld => DeliverKeepsInv(s);
    case DemuxReset =>
      DrainKeepsInv(s, RESET_REPLY, s.demux.reason);
      ReaderMoves(Drain(s, RESET_REPLY, s.demux.reason), Exiting);
    case EndOfOutput => ReaderMoves(s, Exiting);
    case DemuxCleanup =>
      DrainKeepsInv(s, TERMINATED_REPLY, "subprocess closed stdout");
      ReaderMoves(Drain(s, TERMINATED_REPLY, "subprocess closed stdout"), Drained);
    case DemuxExit => ReaderMoves(s, Exited);
    case Close => CloseKeepsInv(s, step);
    case CloseReturns => CloseKeepsInv(s, step);
  }

  lemma ReaderMoves(s: State, next: Demux)
    requires Inv(s) && !s.demux.Holding? && !s.demux.Exited?
    requires next.Exiting? || next.Drained? || next.Exited?
    requires !next.Exiting? ==> s.core.demuxErr.Some?
    ensures Inv(s.(demux := next))
  {
    var t := s.(demux := next);
    forall i | 0 <= i < |t.calls| ensures CallOk(t, i) {
      assert CallOk(s, i);
    }
    forall i, j | 0 <= i < j < |t.calls| ensures PairOk(t, i, j) {
      assert PairOk(s, i, j);
    }
    forall id | id in t.core.pending ensures EntryOk(t, id) {
      assert EntryOk(s, id);
    }
  }

  lemma CloseKeepsInv(s: State, step: Step)
    requires Inv(s) && (step.Close? || step.CloseReturns?) && Enabled(s, step)
    ensures Inv(Apply(s, step))
  {
    var t := Apply(s, step);
    forall i | 0 <= i < |t.calls| ensures CallOk(t, i) {
      assert CallOk(s, i);
    }
    forall i, j | 0 <= i < j < |t.calls| ensures PairOk(t, i, j) {
      assert PairOk(s, i, j);
    }
    forall id | id in t.core.pending ensures EntryOk(t, id) {
      assert EntryOk(s, id);
    }
  }

  lemma {:induction false} RunKeepsInv(s: State, steps: seq<Step>, t: State)
    requires Inv(s) && Reaches(s, steps, t)
    ensures Inv(t)
    decreases |steps|
  {
    if steps != [] {
      StepKeepsInv(s, steps[0]);
      RunKeepsInv(Apply(s, steps[0]), steps[1..], t);
    }
  }

  lemma ReachableInv(steps: seq<Step>, s: State)
    requires Reaches(INIT, steps, s)
    ensures Inv(s)
  {
    assert EntryOk(INIT, STARTUP);
    assert CallOk(INIT, 0);
    RunKeepsInv(INIT, steps, s);
  }

  // ------------------------------------------------------------- main results

  /** In every reachable state each reply channel has received at most one message, and
      whatever the reader is about to send has room: the bare send never blocks, and the
      guarded one never takes its default branch. */
  lemma AtMostOneMessage(steps: seq<Step>, s: State)
    requires Reaches(INIT, steps, s)
    ensures forall i :: 0 <= i < |s.calls| ==> |s.calls[i].log| <= 1
    ensures s.demux.Holding? ==> SendReady(s) && s.core.chans[s.demux.ch] == []
  {
    ReachableInv(steps, s);
    forall i | 0 <= i < |s.calls| ensures |s.calls[i].log| <= 1 {
      assert CallOk(s, i);
    }
    if s.demux.Holding? {
      DeliverKeepsInv(s);
    }
  }

  /** A successful SendRequest returns a reply carrying its own id. With a non-empty id
      it is a line the child wrote, read after the call registered, and returned to no
      other call. */
  lemma SuccessIsOwnReply(steps: seq<Step>, s: State, c: nat)
    requires Reaches(INIT, steps, s)
    requires 0 < c < |s.calls| && s.calls[c].phase.Done? && s.calls[c].phase.outcome.Success?
    ensures var resp := s.calls[c].phase.outcome.resp;
            && resp.requestId == s.calls[c].id && resp.requestId != STARTUP
            && |s.calls[c].log| == 1 && s.calls[c].log[0].resp == resp
            && (s.calls[c].id != "" ==>
                  && s.calls[c].log[0].line.Some?
                  && s.calls[c].since <= s.calls[c].log[0].line.value < |s.lines|
                  && s.lines[s.calls[c].log[0].line.value] == ReplyLine(resp)
                  && forall j {:trigger s.calls[j]} :: 0 <= j < |s.calls| && j != c && s.calls[j].log != [] ==>
                                 s.calls[j].log[0].line != s.calls[c].log[0].line)
  {
    ReachableInv(steps, s);
    assert CallOk(s, c);
    if s.calls[c].id != "" {
      forall j {:trigger s.calls[j]} | 0 <= j < |s.calls| && j != c && s.calls[j].log != []
        ensures s.calls[j].log[0].line != s.calls[c].log[0].line
      {
        assert PairOk(s, if j < c then j else c, if j < c then c else j);
      }
    }
  }

  /** And what a call that waits receives it returns: a line the child wrote is a success,
      and a reset a failure, unless the call's own id is empty. Startup succeeds exactly with
      a message that says "ready". */
  lemma ReceivedIsReturned(steps: seq<Step>, s: State, c: nat)
    requires Reaches(INIT, steps, s) && Enabled(s, Receive(c))
    ensures |s.calls[c].log| == 1 && |Apply(s, Receive(c)).calls| == |s.calls|
    ensures var d, id, phase := s.calls[c].log[0], s.calls[c].id, Apply(s, Receive(c)).calls[c].phase;
            if c == 0 then phase == Done(if d.resp.status == "ready" then Success(d.resp) else Failure(StartupRefused))
            else if d.line.Some? || id == "" then phase == Done(Success(d.resp))
            else phase == Done(Failure(IdMismatch))
  {
    ReachableInv(steps, s);
    assert CallOk(s, c);
  }

  /** From any reachable state, with the reader about to read: the answer to a call that is
      pending and waits, once read, sent and received, is what the call returns, and no other
      call is touched. */
  lemma AnswerIsReturned(steps: seq<Step>, s: State, c: nat, resp: Response) returns (t: State)
    requires Reaches(INIT, steps, s) && s.demux.Scanning? && InPhase(s, c, Waiting) && 0 < c && PendingFor(s, c)
    requires resp.requestId == s.calls[c].id && resp.requestId != ""
    ensures Reaches(s, [ReadLine(ReplyLine(resp)), DeliverHeld, Receive(c)], t)
    ensures |t.calls| == |s.calls| && t.calls[c].phase == Done(Success(resp))
    ensures t.core.pending == s.core.pending - {resp.requestId} && t.demux.Scanning?
    ensures forall i :: 0 <= i < |s.calls| && i != c ==> t.calls[i] == s.calls[i]
  {
    PendingIsEmpty(steps, s, c);
    hide Reaches;
    AnswerIsSent(s, c, resp);
    hide Read, Deliver, Drain, Begin;
    var s1 := Apply(s, ReadLine(ReplyLine(resp)));
    var s2 := Apply(s1, DeliverHeld);
    ThreeSteps(s, ReadLine(ReplyLine(resp)), DeliverHeld, Receive(c));
    t := Apply(s2, Receive(c));
  }

  lemma PendingIsEmpty(steps: seq<Step>, s: State, c: nat)
    requires Reaches(INIT, steps, s) && PendingFor(s, c)
    ensures |s.calls| == |s.core.chans| && s.calls[c].log == [] && s.core.chans[c] == []
  {
    ReachableInv(steps, s);
    assert CallOk(s, c) && EntryOk(s, s.calls[c].id);
  }

  lemma AnswerIsSent(s: State, c: nat, resp: Response)
    requires s.demux.Scanning? && 0 < c && PendingFor(s, c) && c < |s.core.chans| && s.core.chans[c] == []
    requires resp.requestId == s.calls[c].id && resp.requestId != ""
    ensures var s1 := Apply(s, ReadLine(ReplyLine(resp)));
            && Enabled(s1, DeliverHeld)
            && var t := Apply(s1, DeliverHeld);
               && |t.calls| == |s.calls| && t.calls[c] == s.calls[c].(log := s.calls[c].log + [Delivery(resp, Some(|s.lines|))])
               && (forall i :: 0 <= i < |s.calls| && i != c ==> t.calls[i] == s.calls[i])
               && t.core.pending == s.core.pending - {resp.requestId} && t.demux.Scanning?
               && c < |t.core.chans| && t.core.chans[c] == [resp]
  {
    var s1 := Apply(s, ReadLine(ReplyLine(resp)));
    assert s1.demux == Holding(c, resp, |s.lines|, false) && s1.core.chans[c] == [];
  }

  /** The first line without an id is the startup envelope: it goes to the startup call as
      long as that is pending, and ends it there if it waits. */
  lemma EnvelopeReachesStartup(steps: seq<Step>, s: State, resp: Response)
    requires Reaches(INIT, steps, s) && s.demux.Scanning? && STARTUP in s.core.pending && resp.requestId == ""
    ensures var s1 := Apply(s, ReadLine(ReplyLine(resp)));
            && Enabled(s1, DeliverHeld)
            && var t := Apply(s1, DeliverHeld);
               && t.demux.Scanning? && t.core.pending == s.core.pending - {STARTUP} && |t.calls| == |s.calls|
               && t.calls[0] == s.calls[0].(log := [Delivery(resp, Some(|s.lines|))])
               && (forall i :: 0 < i < |s.calls| ==> t.calls[i] == s.calls[i])
               && (s.calls[0].phase.Waiting? ==>
                     && Enabled(t, Receive(0))
                     && Apply(t, Receive(0)).calls[0].phase ==
                        Done(if resp.status == "ready" then Success(resp) else Failure(StartupRefused)))
  {
    ReachableInv(steps, s);
    assert EntryOk(s, STARTUP) && CallOk(s, s.core.pending[STARTUP]);
    hide Inv, CallOk, EntryOk, Reaches;
    EnvelopeIsSent(s, resp);
    hide Deliver, Read;
  }

  lemma EnvelopeIsSent(s: State, resp: Response)
    requires s.demux.Scanning? && STARTUP in s.core.pending && s.core.pending[STARTUP] == 0 && resp.requestId == ""
    requires 0 < |s.calls| == |s.core.chans| && s.core.chans[0] == [] && s.calls[0].log == []
    ensures var s1 := Apply(s, ReadLine(ReplyLine(resp)));
            && Enabled(s1, DeliverHeld)
            && var t := Apply(s1, DeliverHeld);
               && t.demux.Scanning? && t.core.pending == s.core.pending - {STARTUP} && |t.calls| == |s.calls|
               && t.calls[0] == s.calls[0].(log := [Delivery(resp, Some(|s.lines|))])
               && (forall i :: 0 < i < |s.calls| ==> t.calls[i] == s.calls[i])
               && 0 < |t.core.chans| && t.core.chans[0] == [resp]
  {
    var s1 := Apply(s, ReadLine(ReplyLine(resp)));
    assert s1.demux == Holding(0, resp, |s.lines|, true) && s1.core.chans[0] == [];
  }

  lemma ThreeSteps(s: State, a: Step, b: Step, c: Step)
    requires Enabled(s, a) && Enabled(Apply(s, a), b) && Enabled(Apply(Apply(s, a), b), c)
    ensures Reaches(s, [a, b, c], Apply(Apply(Apply(s, a), b), c))
  {
    hide Enabled, Apply;
    var s1 := Apply(s, a);
    var s2 := Apply(s1, b);
    assert [a, b, c][1..] == [b, c] && [b, c][1..] == [c] && [c][1..] == [];
    assert Reaches(s2, [c], Apply(s2, c));
    assert Reaches(s1, [b, c], Apply(s2, c));
  }

  /** A call on an open dispatcher that is registered and written is pending and waits. */
  lemma FreshCallWaits(steps: seq<Step>, s: State, id: string) returns (t: State)
    requires Reaches(INIT, steps, s) && Open(s) && FreshId(s, id)
    ensures 0 < |s.calls| && Reaches(s, [Start(id), BeginWrite(|s.calls|), WriteDone(|s.calls|)], t)
    ensures t.demux == s.demux && t.core.pending == s.core.pending[id := |s.calls|]
    ensures t.calls == s.calls + [Call(id, |s.lines|, Waiting, [])]
  {
    ReachableInv(steps, s);
    var n, s1 := |s.calls|, Apply(s, Start(id));
    var s2 := Apply(s1, BeginWrite(n));
    t := Apply(s2, WriteDone(n));
    assert t.calls == s.calls + [Call(id, |s.lines|, Waiting, [])];
    ThreeSteps(s, Start(id), BeginWrite(n), WriteDone(n));
  }

  /** So from any reachable open state a call that is written and answered returns its answer. */
  lemma AnsweredCallSucceeds(steps: seq<Step>, s: State, id: string, resp: Response) returns (more: seq<Step>, t: State)
    requires Reaches(INIT, steps, s) && Open(s) && s.demux.Scanning? && FreshId(s, id)
    requires resp.requestId == id && id != ""
    ensures Reaches(s, more, t) && |t.calls| == |s.calls| + 1
    ensures t.calls[..|s.calls|] == s.calls && t.calls[|s.calls|].phase == Done(Success(resp))
    ensures t.core.pending == s.core.pending - {id}
  {
    var n := |s.calls|;
    var m := FreshCallWaits(steps, s, id);
    var first, rest := [Start(id), BeginWrite(n), WriteDone(n)], [ReadLine(ReplyLine(resp)), DeliverHeld, Receive(n)];
    hide Reaches, FreshId;
    Joins(INIT, steps, s, first, m);
    t := AnswerIsReturned(steps + first, m, n, resp);
    Joins(s, first, m, rest, t);
    more := first + rest;
    assert m.core.pending - {id} == s.core.pending - {id};
  }

  lemma {:induction false} Joins(s: State, first: seq<Step>, m: State, rest: seq<Step>, t: State)
    requires Reaches(s, first, m) && Reaches(m, rest, t)
    ensures Reaches(s, first + rest, t)
    decreases |first|
  {
    hide Enabled, Apply;
    if first == [] {
      assert first + rest == rest;
    } else {
      Joins(Apply(s, first[0]), first[1..], m, rest, t);
      assert (first + rest)[1..] == first[1..] + rest;
    }
  }

  /** How a caller that gives up does so. */
  function GivingUp(step: Step): Option<Cause> {
    match step
    case WriteFails(_) => Some(WriteFailure)
    case WriteTimesOut(_) => Some(WriteDeadline)
    case WriteCanceled(_) => Some(Canceled)
    case Timeout(_) => Some(CallDeadline)
    case Cancel(_) => Some(Canceled)
    case _ => None
  }

  /** Everyone who was pending has been reset, and later calls are refused. */
  ghost predicate Released(s: State, t: State) {
    && |t.calls| == |s.calls| && t.core.pending == map[] && t.core.demuxErr.Some?
    && forall i :: 0 <= i < |s.calls| && PendingFor(s, i) ==> t.calls[i].log == [Delivery(RESET_REPLY, None)]
  }

  lemma DrainReleases(s: State, reason: string)
    requires Inv(s)
    ensures Released(s, Drain(s, RESET_REPLY, reason))
  {
    hide Inv;
    forall i | 0 <= i < |s.calls| && PendingFor(s, i)
      ensures Drain(s, RESET_REPLY, reason).calls[i].log == [Delivery(RESET_REPLY, None)]
    {
      DrainedCall(s, RESET_REPLY, reason, i);
    }
  }

  lemma SamePending(s: State, m: State, t: State)
    requires Released(m, t) && m.core.pending == s.core.pending && |m.calls| == |s.calls|
    requires forall i :: 0 <= i < |s.calls| ==> m.calls[i].id == s.calls[i].id
    ensures Released(s, t)
  {
  }

  lemma ReleasedExits(s: State, t: State)
    requires Released(s, t)
    ensures Released(s, t.(demux := Exiting))
  {
  }

  /** A caller that gives up returns its reason and leaves nothing pending; nobody else hears
      of it. */
  lemma GivesUpAs(s: State, c: nat, step: Step)
    requires 0 < c && Enabled(s, step)
    requires step == WriteCanceled(c) || step == Timeout(c) || step == Cancel(c)
    ensures var m := Apply(s, step);
            && Enabled(m, Leave(c))
            && var t := Apply(m, Leave(c));
               && |t.calls| == |s.calls| && t.calls[c].phase == Done(Failure(GivingUp(step).value))
               && t.core == s.core.(pending := s.core.pending - {s.calls[c].id})
               && forall i :: 0 <= i < |s.calls| && i != c ==> t.calls[i] == s.calls[i]
  {
  }

  /** Where the write itself failed or ran out of time, everyone pending is reset as well. */
  lemma FailedWriteResets(steps: seq<Step>, s: State, c: nat, step: Step)
    requires Reaches(INIT, steps, s) && Enabled(s, step)
    requires step == WriteFails(c) || step == WriteTimesOut(c)
    ensures var m, failed := Apply(s, step), Done(Failure(GivingUp(step).value));
            && Released(s, m)
            && (c == 0 ==> m.calls[0].phase == failed)
            && (c > 0 ==> Enabled(m, Leave(c)) && Apply(m, Leave(c)).calls[c].phase == failed)
  {
    ReachableInv(steps, s);
    var p := if c == 0 then Done(Failure(GivingUp(step).value)) else Leaving(GivingUp(step).value);
    FailedWriteDrains(s, c, step, p);
    hide Inv, Reaches, PendingFor, Drain, Released;
  }

  lemma FailedWriteDrains(s: State, c: nat, step: Step, p: Phase)
    requires Inv(s) && Enabled(s, step) && (step == WriteFails(c) || step == WriteTimesOut(c))
    requires p == if c == 0 then Done(Failure(GivingUp(step).value)) else Leaving(GivingUp(step).value)
    ensures Released(s, Apply(s, step)) && |Apply(s, step).calls| == |s.calls| && Apply(s, step).calls[c].phase == p
  {
    var left, reason := WithPhase(s, c, p), if step.WriteFails? then "write" else "stdin write deadline";
    PhaseKeepsInv(s, c, p);
    DrainReleases(left, reason);
    DrainedCall(left, RESET_REPLY, reason, c);
    SamePending(s, left, Drain(left, RESET_REPLY, reason));
    hide Inv, Drain, PendingFor, Released;
  }

  /** What can happen to a call next: a write can end in each way while it is under way and not
      otherwise, a caller that waits can give up, and one that has given up can leave. */
  lemma CallMoves(s: State, c: nat)
    requires c < |s.calls|
    ensures s.calls[c].phase.Registered? <==> Enabled(s, BeginWrite(c))
    ensures s.calls[c].phase.Writing? <==> Enabled(s, WriteDone(c))
    ensures s.calls[c].phase.Writing? <==> Enabled(s, WriteFails(c))
    ensures s.calls[c].phase.Writing? <==> Enabled(s, WriteTimesOut(c))
    ensures c > 0 ==> (s.calls[c].phase.Writing? <==> Enabled(s, WriteCanceled(c)))
    ensures c > 0 ==> (s.calls[c].phase.Waiting? <==> Enabled(s, Timeout(c)) && Enabled(s, Cancel(c)))
    ensures c > 0 ==> (s.calls[c].phase.Leaving? <==> Enabled(s, Leave(c)))
    ensures c == 0 ==> (Live(s.calls[0]) <==> Enabled(s, AbandonStartup))
  {
  }

  /** A Close of an open dispatcher returns once the reader has seen the end of the output and
      cleaned up; by then everyone who was pending has been told. */
  lemma CloseReleases(steps: seq<Step>, s: State) returns (t: State)
    requires Reaches(INIT, steps, s) && !s.core.closed && s.demux.Scanning?
    ensures Reaches(s, [Close, EndOfOutput, DemuxCleanup] + [DemuxExit, CloseReturns], t)
    ensures t.closer.Closed? && t.demux.Exited? && t.core.closed && t.core.pending == map[] && |t.calls| == |s.calls|
    ensures forall i :: 0 <= i < |s.calls| && PendingFor(s, i) ==> t.calls[i].log == [Delivery(TERMINATED_REPLY, None)]
  {
    ReachableInv(steps, s);
    var d := ClosingCleansUp(s);
    hide Inv, PendingFor, Apply;
    t := d.(demux := Exited, closer := Closed);
    ClosingReturns(d);
    Joins(s, [Close, EndOfOutput, DemuxCleanup], d, [DemuxExit, CloseReturns], t);
  }

  lemma ClosingCleansUp(s: State) returns (d: State)
    requires Inv(s) && !s.core.closed && s.demux.Scanning?
    ensures Reaches(s, [Close, EndOfOutput, DemuxCleanup], d)
    ensures d.closer.Closing? && d.demux.Drained? && d.core.closed && d.core.pending == map[] && |d.calls| == |s.calls|
    ensures forall i :: 0 <= i < |s.calls| && PendingFor(s, i) ==> d.calls[i].log == [Delivery(TERMINATED_REPLY, None)]
  {
    CloseKeepsInv(s, Close);
    ReaderMoves(Apply(s, Close), Exiting);
    hide Inv;
    ThreeSteps(s, Close, EndOfOutput, DemuxCleanup);
    hide Reaches;
    var m, last := s.(core := CloseCore(s.core), closer := Closing, demux := Exiting), "subprocess closed stdout";
    assert m == Apply(Apply(s, Close), EndOfOutput);
    d := Drain(m, TERMINATED_REPLY, last).(demux := Drained);
    forall i | 0 <= i < |s.calls| && PendingFor(s, i)
      ensures d.calls[i].log == [Delivery(TERMINATED_REPLY, None)]
    {
      DrainedCall(m, TERMINATED_REPLY, last, i);
    }
  }

  lemma ClosingReturns(d: State)
    requires d.demux.Drained? && d.closer.Closing?
    ensures Reaches(d, [DemuxExit, CloseReturns], d.(demux := Exited, closer := Closed))
  {
    var e, t := d.(demux := Exited), d.(demux := Exited, closer := Closed);
    assert Reaches(e, [CloseReturns], t);
    assert [DemuxExit, CloseReturns][1..] == [CloseReturns];
  }

  /** A line whose id names nobody pending (late, duplicate or unknown) leaves the dispatcher
      and every call as they were. */
  lemma StrayLineIsDropped(s: State, resp: Response)
    requires s.demux.Scanning? && resp.requestId != "" && resp.requestId !in s.core.pending
    ensures Apply(s, ReadLine(ReplyLine(resp))) == s.(lines := s.lines + [ReplyLine(resp)])
  {
  }

  /** One without an id, after startup, or one that cannot be decoded is corruption. */
  lemma CorruptLineResets(steps: seq<Step>, s: State, line: Line)
    requires Reaches(INIT, steps, s) && s.demux.Scanning?
    requires line.MalformedLine? || (line.ReplyLine? && line.resp.requestId == "" && STARTUP !in s.core.pending)
    ensures var m := Apply(s, ReadLine(line));
            Enabled(m, DemuxReset) && Released(s, Apply(m, DemuxReset)) && Apply(m, DemuxReset).demux == Exiting
  {
    ReachableInv(steps, s);
    ReadKeepsInv(s, line);
    hide Inv, Reaches, Drain, Released;
    var m := Apply(s, ReadLine(line));
    DrainReleases(m, m.demux.reason);
    SamePending(s, m, Drain(m, RESET_REPLY, m.demux.reason));
    ReleasedExits(s, Drain(m, RESET_REPLY, m.demux.reason));
  }

  /** A line whose id names nobody pending (late, duplicate or unknown) reaches no
      channel, now or later. */
  lemma StrayLineReachesNobody(steps: seq<Step>, s: State, resp: Response, more: seq<Step>, t: State)
    requires Reaches(INIT, steps, s) && s.demux.Scanning?
    requires resp.requestId !in s.core.pending
    requires resp.requestId == "" ==> STARTUP !in s.core.pending
    requires Reaches(Apply(s, ReadLine(ReplyLine(resp))), more, t)
    ensures |s.lines| < |t.lines| && t.lines[|s.lines|] == ReplyLine(resp)
    ensures forall i :: 0 <= i < |t.calls| && t.calls[i].log != [] ==> t.calls[i].log[0].line != Some(|s.lines|)
  {
    ReachableInv(steps, s);
    var s1 := Apply(s, ReadLine(ReplyLine(resp)));
    ReadKeepsInv(s, ReplyLine(resp));
    forall i | 0 <= i < |s1.calls| ensures CallOk(s, i) && s1.calls[i] == s.calls[i] {
    }
    LineStaysUnsent(s1, more, t, |s.lines|);
  }

  /** What one step can do to a call already made: keep its channel's history, add a reset
      to it, or deliver the line the reader holds. */
  predicate LogExtends(s: State, t: State, step: Step, i: nat)
    requires i < |s.calls| <= |t.calls|
  {
    || t.calls[i].log == s.calls[i].log
    || (s.calls[i].log == [] && |t.calls[i].log| == 1 && t.calls[i].log[0].line.None?)
    || (HeldFor(s, i) && step.DeliverHeld? && t.calls[i].log == [Delivery(s.demux.resp, Some(s.demux.line))])
  }

  predicate Drains(step: Step) {
    step.WriteFails? || step.WriteTimesOut? || step.DemuxReset? || step.DemuxCleanup?
  }

  lemma StepExtendsLogs(s: State, step: Step)
    requires Inv(s) && Enabled(s, step)
    ensures var t := Apply(s, step);
            && |s.calls| <= |t.calls| && s.lines <= t.lines
            && (forall i :: 0 <= i < |s.calls| ==> LogExtends(s, t, step, i))
            && (forall i :: |s.calls| <= i < |t.calls| ==> t.calls[i].log == [] && step.Start?)
            && (t.demux.Holding? ==> t.demux == s.demux || (step.ReadLine? && t.demux.line == |s.lines|))
  {
    if Drains(step) {
      DrainingStepExtendsLogs(s, step);
    } else if step.DeliverHeld? {
      hide SendCore, Inv;
    } else {
      QuietStepKeepsLogs(s, step);
      hide Apply, Enabled, Inv;
    }
  }

  lemma QuietStepKeepsLogs(s: State, step: Step)
    requires Enabled(s, step) && !Drains(step) && !step.DeliverHeld?
    ensures var t := Apply(s, step);
            && |s.calls| <= |t.calls| && s.lines <= t.lines
            && (forall i :: 0 <= i < |s.calls| ==> t.calls[i].log == s.calls[i].log)
            && (forall i :: |s.calls| <= i < |t.calls| ==> t.calls[i].log == [] && step.Start?)
            && (t.demux.Holding? ==> t.demux == s.demux || (step.ReadLine? && t.demux.line == |s.lines|))
  {
    hide RegisterCore, RouteCore, FreshId;
  }

  lemma DrainingStepExtendsLogs(s: State, step: Step)
    requires Inv(s) && Enabled(s, step) && Drains(step)
    ensures var t := Apply(s, step);
            && |s.calls| == |t.calls| && s.lines == t.lines && (t.demux.Holding? ==> t.demux == s.demux)
            && forall i :: 0 <= i < |s.calls| ==> LogExtends(s, t, step, i)
  {
    hide Drain, CallOk, PairOk, EntryOk, ReaderOk;
    match step
    case WriteFails(c) =>
      PhaseKeepsInv(s, c, Quit(c, WriteFailure));
      DrainExtendsLogs(s, WithPhase(s, c, Quit(c, WriteFailure)), RESET_REPLY, "write");
    case WriteTimesOut(c) =>
      PhaseKeepsInv(s, c, Quit(c, WriteDeadline));
      DrainExtendsLogs(s, WithPhase(s, c, Quit(c, WriteDeadline)), RESET_REPLY, "stdin write deadline");
    case DemuxReset => DrainExtendsLogs(s, s, RESET_REPLY, s.demux.reason);
    case DemuxCleanup => DrainExtendsLogs(s, s, TERMINATED_REPLY, "subprocess closed stdout");
  }

  lemma DrainExtendsLogs(s: State, s1: State, reply: Response, reason: string)
    requires Inv(s1) && |s1.calls| == |s.calls|
    requires forall i :: 0 <= i < |s.calls| ==> s1.calls[i].log == s.calls[i].log
    ensures var t := Drain(s1, reply, reason);
            && |s.calls| == |t.calls| && t.lines == s1.lines && t.demux == s1.demux
            && forall i :: 0 <= i < |s.calls| ==>
                             || t.calls[i].log == s.calls[i].log
                             || (s.calls[i].log == [] && |t.calls[i].log| == 1 && t.calls[i].log[0].line.None?)
  {
    forall i | 0 <= i < |s.calls|
      ensures var t := Drain(s1, reply, reason);
              || t.calls[i].log == s.calls[i].log
              || (s.calls[i].log == [] && |t.calls[i].log| == 1 && t.calls[i].log[0].line.None?)
    {
      DrainedCall(s1, reply, reason, i);
    }
  }

  /** A line that is neither in a channel nor in the reader's hands. */
  ghost predicate Unsent(s: State, n: nat) {
    && n < |s.lines|
    && !(s.demux.Holding? && s.demux.line == n)
    && forall i :: 0 <= i < |s.calls| && s.calls[i].log != [] ==> s.calls[i].log[0].line != Some(n)
  }

  lemma UnsentStep(s: State, step: Step, n: nat)
    requires Inv(s) && Enabled(s, step) && Unsent(s, n)
    ensures Unsent(Apply(s, step), n) && Apply(s, step).lines[n] == s.lines[n]
  {
    StepExtendsLogs(s, step);
    hide Inv, Enabled, Apply;
    var t := Apply(s, step);
    forall i | 0 <= i < |t.calls| && t.calls[i].log != []
      ensures t.calls[i].log[0].line != Some(n)
    {
      assert i < |s.calls| ==> LogExtends(s, t, step, i);
    }
  }

  /** It stays that way. */
  lemma {:induction false} LineStaysUnsent(s: State, steps: seq<Step>, t: State, n: nat)
    requires Inv(s) && Unsent(s, n) && Reaches(s, steps, t)
    ensures Unsent(t, n) && t.lines[n] == s.lines[n]
    decreases |steps|
  {
    hide Inv, Enabled, Apply;
    if steps != [] {
      StepKeepsInv(s, steps[0]);
      UnsentStep(s, steps[0], n);
      LineStaysUnsent(Apply(s, steps[0]), steps[1..], t, n);
    }
  }

  /** A recorded failure empties the map for good: nobody registers behind a dead reader. */
  lemma {:induction false} DeadReaderStaysEmpty(steps: seq<Step>, s: State, more: seq<Step>, t: State)
    requires Reaches(INIT, steps, s) && s.core.demuxErr.Some?
    requires Reaches(s, more, t)
    ensures s.core.pending == map[] && t.core.pending == map[] && t.core.demuxErr == s.core.demuxErr
    ensures forall i :: |s.calls| <= i < |t.calls| ==> t.calls[i].phase.Done? && t.calls[i].log == []
  {
    ReachableInv(steps, s);
    DeadReaderFrom(s, |s.calls|, more, t);
  }

  lemma DeadReaderStep(s: State, step: Step)
    requires Inv(s) && s.core.demuxErr.Some? && Enabled(s, step)
    ensures Apply(s, step).core.demuxErr == s.core.demuxErr
    ensures forall i :: |s.calls| <= i < |Apply(s, step).calls| ==> Apply(s, step).calls[i].phase.Done?
    ensures forall i :: 0 <= i < |s.calls| && s.calls[i].phase.Done? ==> Apply(s, step).calls[i].phase.Done?
  {
    match step
    case Start(_) =>
    case _ =>
  }

  lemma {:induction false} DeadReaderFrom(s: State, n: nat, steps: seq<Step>, t: State)
    requires Inv(s) && s.core.demuxErr.Some? && n <= |s.calls|
    requires s.demux.Holding? ==> s.demux.ch < n
    requires forall i :: n <= i < |s.calls| ==> s.calls[i].phase.Done? && s.calls[i].log == []
    requires Reaches(s, steps, t)
    ensures t.core.pending == map[] && t.core.demuxErr == s.core.demuxErr
    ensures forall i :: n <= i < |t.calls| ==> t.calls[i].phase.Done? && t.calls[i].log == []
    decreases |steps|
  {
    if steps != [] {
      var s1 := Apply(s, steps[0]);
      StepKeepsInv(s, steps[0]);
      StepExtendsLogs(s, steps[0]);
      DeadReaderStep(s, steps[0]);
      DeadReaderLogs(s, n, steps[0]);
      DeadReaderFrom(s1, n, steps[1..], t);
    }
  }

  /** With nobody pending, a drain reaches no channel and a lookup finds none. */
  lemma DeadReaderLogs(s: State, n: nat, step: Step)
    requires Inv(s) && s.core.demuxErr.Some? && n <= |s.calls| && Enabled(s, step)
    requires s.demux.Holding? ==> s.demux.ch < n
    ensures var t := Apply(s, step);
            && (t.demux.Holding? ==> t.demux.ch < n)
            && forall i :: n <= i < |s.calls| ==> t.calls[i].log == s.calls[i].log
  {
    assert s.core.pending == map[];
    hide Inv, FreshId, Begin;
    if step.Start? {
      BeginKeepsLogs(s, step.id);
    }
  }

  lemma BeginKeepsLogs(s: State, id: string)
    ensures var t := Begin(s, id);
            t.demux == s.demux && |t.calls| == |s.calls| + 1 && forall i :: 0 <= i < |s.calls| ==> t.calls[i] == s.calls[i]
  {
  }

  /** Once the reader has cleaned up, or the Close that found the dispatcher open has
      returned, every call that has not given up has exactly one message, and a waiting
      one can take it. */
  lemma NobodyLeftWaiting(steps: seq<Step>, s: State)
    requires Reaches(INIT, steps, s)
    requires s.demux.Drained? || s.demux.Exited? || s.closer.Closed?
    ensures forall i :: 0 <= i < |s.calls| && Live(s.calls[i]) ==> |s.calls[i].log| == 1
    ensures forall i :: 0 <= i < |s.calls| && s.calls[i].phase.Waiting? ==> Enabled(s, Receive(i))
  {
    ReachableInv(steps, s);
    forall i | 0 <= i < |s.calls| && Live(s.calls[i])
      ensures |s.calls[i].log| == 1 && s.core.chans[i] != []
    {
      assert CallOk(s, i);
    }
  }

  /** The child writes each reply for one request and echoes its id: `answers` names, for
      every line, the call whose request it answers. */
  predicate Echoes(s: State, answers: seq<nat>) {
    && |answers| == |s.lines|
    && forall n :: 0 <= n < |s.lines| && s.lines[n].ReplyLine? && s.lines[n].resp.requestId != "" ==>
                     answers[n] < |s.calls| && s.calls[answers[n]].id == s.lines[n].resp.requestId
  }

  /** From a child that echoes ids a call receives the answer to its own request, unless its
      id was used for another one as well, and then not while both were in flight. */
  lemma AnswersReachTheirRequest(steps: seq<Step>, s: State, answers: seq<nat>, i: nat)
    requires Reaches(INIT, steps, s) && Echoes(s, answers)
    requires 0 < i < |s.calls| && s.calls[i].id != "" && s.calls[i].log != [] && s.calls[i].log[0].line.Some?
    ensures var n := s.calls[i].log[0].line.value;
            && n < |s.lines| && answers[n] < |s.calls|
            && (answers[n] == i ||
                (&& s.calls[answers[n]].id == s.calls[i].id
                 && !(InFlight(s.calls[i]) && InFlight(s.calls[answers[n]]))))
  {
    ReachableInv(steps, s);
    assert CallOk(s, i);
    var a := answers[s.calls[i].log[0].line.value];
    if a != i {
      assert CallOk(s, a);
      assert PairOk(s, if i < a then i else a, if i < a then a else i);
    }
  }

  // ------------------------------------------------ where the guarantees stop

  lemma {:induction false} OneMoreStep(s: State, steps: seq<Step>, m: State, step: Step)
    requires Reaches(s, steps, m) && Enabled(m, step)
    ensures Reaches(s, steps + [step], Apply(m, step))
    decreases |steps|
  {
    var all := steps + [step];
    if steps == [] {
      assert all[1..] == [];
    } else {
      OneMoreStep(Apply(s, steps[0]), steps[1..], m, step);
      assert all[0] == steps[0] && all[1..] == steps[1..] + [step];
    }
  }

  /** A single call, written and waiting. */
  function OneWaiting(id: string): State {
    State(Core(map[STARTUP := 0][id := 1], [[], []], false, true, None),
          [Call(STARTUP, 0, Registered, []), Call(id, 0, Waiting, [])],
          Scanning, NotClosing, false, [])
  }

  lemma ReachOneWaiting(id: string) returns (steps: seq<Step>)
    requires id != STARTUP
    ensures Reaches(INIT, steps, OneWaiting(id))
  {
    var s1 := Apply(INIT, Start(id));
    assert Reaches(INIT, [], INIT);
    OneMoreStep(INIT, [], INIT, Start(id));
    OneMoreStep(INIT, [] + [Start(id)], s1, BeginWrite(1));
    OneMoreStep(INIT, [] + [Start(id)] + [BeginWrite(1)], Apply(s1, BeginWrite(1)), WriteDone(1));
    steps := [] + [Start(id)] + [BeginWrite(1)] + [WriteDone(1)];
    assert Apply(Apply(s1, BeginWrite(1)), WriteDone(1)) == OneWaiting(id);
  }

  /** The same call after its deadline, deregistered. */
  function OneTimedOut(id: string): State {
    State(Core(map[STARTUP := 0], [[], []], false, true, None),
          [Call(STARTUP, 0, Registered, []), Call(id, 0, Done(Failure(CallDeadline)), [])],
          Scanning, NotClosing, false, [])
  }

  lemma ReachOneTimedOut(id: string) returns (steps: seq<Step>)
    requires id != STARTUP
    ensures Reaches(INIT, steps, OneTimedOut(id))
  {
    var p0 := ReachOneWaiting(id);
    var s0 := OneWaiting(id);
    OneMoreStep(INIT, p0, s0, Timeout(1));
    var s1 := Apply(s0, Timeout(1));
    OneMoreStep(INIT, p0 + [Timeout(1)], s1, Leave(1));
    steps := p0 + [Timeout(1)] + [Leave(1)];
    assert s1.core.pending - {id} == map[STARTUP := 0];
    assert Apply(s1, Leave(1)) == OneTimedOut(id);
  }

  /** Under an empty id the id check cannot tell a reset from a reply. */
  lemma EmptyIdTakesResetForReply() returns (steps: seq<Step>, s: State)
    ensures Reaches(INIT, steps, s) && |s.calls| == 2
    ensures s.calls[1].id == "" && s.calls[1].phase == Done(Success(TERMINATED_REPLY)) && s.lines == []
  {
    var p0 := ReachOneWaiting("");
    var s0 := OneWaiting("");
    OneMoreStep(INIT, p0, s0, EndOfOutput);
    var p1, s1 := p0 + [EndOfOutput], Apply(s0, EndOfOutput);
    assert s1.core.pending[""] == 1 && 1 in s1.core.pending.Values;
    OneMoreStep(INIT, p1, s1, DemuxCleanup);
    var p2, s2 := p1 + [DemuxCleanup], Apply(s1, DemuxCleanup);
    assert s2.core.chans[1] == [TERMINATED_REPLY];
    OneMoreStep(INIT, p2, s2, Receive(1));
    steps, s := p2 + [Receive(1)], Apply(s2, Receive(1));
  }

  /** A call with no message, whom no entry names and for whom the reader holds nothing. */
  predicate Stranded(s: State, i: nat) {
    && i < |s.calls| == |s.core.chans|
    && s.calls[i].log == [] && s.core.chans[i] == []
    && i !in s.core.pending.Values
    && (s.demux.Holding? ==> s.demux.ch != i)
    && !(s.calls[i].phase.Done? && s.calls[i].phase.outcome.Success?)
  }

  lemma StrandedDrain(s: State, i: nat, reply: Response, reason: string)
    requires Stranded(s, i)
    ensures Stranded(Drain(s, reply, reason), i)
  {
  }

  lemma StrandedPhase(s: State, i: nat, c: nat, p: Phase)
    requires Stranded(s, i) && c < |s.calls| && (p.Done? ==> p.outcome.Failure?)
    ensures Stranded(WithPhase(s, c, p), i)
  {
  }

  lemma StrandedRead(s: State, i: nat, line: Line)
    requires Stranded(s, i) && s.demux.Scanning?
    ensures Stranded(Read(s, line), i)
  {
    assert forall id :: id in s.core.pending ==> s.core.pending[id] in s.core.pending.Values;
  }

  lemma StrandedBegin(s: State, i: nat, id: string)
    requires Stranded(s, i)
    ensures Stranded(Begin(s, id), i)
  {
  }

  lemma StrandedDeliver(s: State, i: nat)
    requires Stranded(s, i) && SendReady(s)
    ensures Stranded(Deliver(s), i)
  {
  }

  lemma StrandedTake(s: State, i: nat, c: nat)
    requires Stranded(s, i) && c < |s.calls| && s.core.chans[c] != []
    ensures Stranded(Take(s, c), i)
  {
    assert c != i;
  }

  lemma StrandedStep(s: State, i: nat, step: Step)
    requires Stranded(s, i) && Enabled(s, step)
    ensures Stranded(Apply(s, step), i)
  {
    hide FreshId, Drain, Begin, Deliver, Take, Read;
    match step
    case WriteFails(c) =>
      StrandedPhase(s, i, c, Quit(c, WriteFailure));
      StrandedDrain(WithPhase(s, c, Quit(c, WriteFailure)), i, RESET_REPLY, "write");
    case WriteTimesOut(c) =>
      StrandedPhase(s, i, c, Quit(c, WriteDeadline));
      StrandedDrain(WithPhase(s, c, Quit(c, WriteDeadline)), i, RESET_REPLY, "stdin write deadline");
    case DemuxReset => StrandedDrain(s, i, RESET_REPLY, s.demux.reason);
    case DemuxCleanup => StrandedDrain(s, i, TERMINATED_REPLY, "subprocess closed stdout");
    case ReadLine(line) => StrandedRead(s, i, line);
    case Start(id) => StrandedBegin(s, i, id);
    case DeliverHeld => StrandedDeliver(s, i);
    case Receive(c) => StrandedTake(s, i, c);
    case _ =>
  }

  lemma {:induction false} StrandedForGood(s: State, i: nat, steps: seq<Step>, t: State)
    requires Stranded(s, i) && Reaches(s, steps, t)
    ensures Stranded(t, i)
    decreases |steps|
  {
    hide Stranded, Apply, Enabled;
    if steps != [] {
      StrandedStep(s, i, steps[0]);
      StrandedForGood(Apply(s, steps[0]), i, steps[1..], t);
    }
  }

  predicate Open(s: State) {
    !s.core.closed && s.core.demuxErr.None?
  }

  /** A line with the id, read right after a call under it has registered. */
  lemma NextLineReaches(s: State, id: string, resp: Response)
    requires Inv(s) && Open(s) && s.demux.Scanning? && FreshId(s, id) && resp.requestId == id && id != ""
    ensures var n, s1 := |s.calls|, Apply(s, Start(id));
            && Enabled(s1, ReadLine(ReplyLine(resp)))
            && var s2 := Apply(s1, ReadLine(ReplyLine(resp)));
               && Enabled(s2, DeliverHeld)
               && var t := Apply(s2, DeliverHeld);
                  && |t.calls| == n + 1 && t.calls[n].id == id && t.calls[n].phase.Registered?
                  && t.calls[n].log == [Delivery(resp, Some(|s.lines|))]
                  && forall i :: 0 <= i < n ==> t.calls[i] == s.calls[i]
  {
    var n, s1 := |s.calls|, Apply(s, Start(id));
    assert s1.core.pending[id] == n && s1.core.chans[n] == [];
    assert Apply(s1, ReadLine(ReplyLine(resp))).demux == Holding(n, resp, |s.lines|, false);
  }

  /** Some continuation delivers the message to call `n` before it has written anything. */
  ghost predicate CanBeSent(s: State, n: nat, d: Delivery) {
    exists more, t :: Reaches(s, more, t) && n < |t.calls| && t.calls[n].phase.Registered? && t.calls[n].log == [d]
  }

  lemma SentBy(s: State, n: nat, d: Delivery, more: seq<Step>, t: State)
    requires Reaches(s, more, t) && n < |t.calls| && t.calls[n].phase.Registered? && t.calls[n].log == [d]
    ensures CanBeSent(s, n, d)
  {
  }

  /** A call that is refused has nobody to send it anything. */
  lemma RefusedIsStranded(s: State, id: string)
    requires Inv(s) && !Open(s) && FreshId(s, id)
    ensures Stranded(Apply(s, Start(id)), |s.calls|)
  {
    assert forall k :: k in s.core.pending ==> EntryOk(s, k);
  }

  /** Ids unique in flight may still be used again. In any reachable state where an id was
      used before, by a call that is over, and the reader is about to read, the next call under
      it can be sent the very next line, before it has written anything: exactly when the
      dispatcher takes calls. */
  lemma ReusedIdReceivesLateReplyIff(steps: seq<Step>, s: State, i: nat, resp: Response)
    requires Reaches(INIT, steps, s) && s.demux.Scanning? && 0 < i < |s.calls|
    requires FreshId(s, s.calls[i].id) && s.calls[i].id != "" && resp.requestId == s.calls[i].id
    ensures Open(s) <==> CanBeSent(Apply(s, Start(s.calls[i].id)), |s.calls|, Delivery(resp, Some(|s.lines|)))
  {
    ReachableInv(steps, s);
    var id, n := s.calls[i].id, |s.calls|;
    var s1 := Apply(s, Start(id));
    if Open(s) {
      NextLineReaches(s, id, resp);
      var s2 := Apply(s1, ReadLine(ReplyLine(resp)));
      var t := Apply(s2, DeliverHeld);
      hide Inv, Apply, Enabled;
      OneMoreStep(s1, [], s1, ReadLine(ReplyLine(resp)));
      OneMoreStep(s1, [] + [ReadLine(ReplyLine(resp))], s2, DeliverHeld);
      assert Reaches(s1, [] + [ReadLine(ReplyLine(resp))] + [DeliverHeld], t);
      SentBy(s1, n, Delivery(resp, Some(|s.lines|)), [] + [ReadLine(ReplyLine(resp))] + [DeliverHeld], t);
    } else {
      RefusedIsStranded(s, id);
      hide Inv, Apply, Enabled;
      forall more, t | Reaches(s1, more, t)
        ensures Stranded(t, n)
      {
        StrandedForGood(s1, n, more, t);
      }
    }
  }

  /** From nothing: the reply to a call that timed out reaches its successor. */
  lemma ReusedIdReceivesLateReply(id: string, resp: Response) returns (steps: seq<Step>, s: State)
    requires resp.requestId == id && id != "" && id != STARTUP
    ensures Reaches(INIT, steps, s) && |s.calls| == 3
    ensures s.calls[1].id == s.calls[2].id && s.calls[1].phase == Done(Failure(CallDeadline))
    ensures s.calls[2].phase.Registered? && s.calls[2].log == [Delivery(resp, Some(0))]
  {
    var p2 := ReachOneTimedOut(id);
    var s2, read := OneTimedOut(id), ReadLine(ReplyLine(resp));
    ReachableInv(p2, s2);
    assert FreshId(s2, id);
    NextLineReaches(s2, id, resp);
    hide Inv, Apply, Reaches;
    OneMoreStep(INIT, p2, s2, Start(id));
    OneMoreStep(INIT, p2 + [Start(id)], Apply(s2, Start(id)), read);
    var s4 := Apply(Apply(s2, Start(id)), read);
    OneMoreStep(INIT, p2 + [Start(id)] + [read], s4, DeliverHeld);
    steps, s := p2 + [Start(id)] + [read] + [DeliverHeld], Apply(s4, DeliverHeld);
  }

  /** A second call under the id of one still pending takes over its entry, and so strands it,
      exactly when the dispatcher is open. */
  lemma DuplicateStrandsIff(steps: seq<Step>, s: State, i: nat)
    requires Reaches(INIT, steps, s) && 0 < i && PendingFor(s, i)
    ensures Stranded(Begin(s, s.calls[i].id), i) <==> !s.core.closed
  {
    ReachableInv(steps, s);
    var id := s.calls[i].id;
    assert EntryOk(s, id) && CallOk(s, i);
    assert s.core.pending != map[];
    var t := Begin(s, id);
    if s.core.closed {
      assert t.core.pending[id] in t.core.pending.Values;
    } else {
      assert forall k :: k in s.core.pending && s.core.pending[k] == i ==> EntryOk(s, k);
    }
  }

  /** The stranded call never receives anything, whatever happens next; it ends only by giving
      up, which it can do as soon as it waits. */
  lemma DuplicateIdStrandsCaller(steps: seq<Step>, s: State, i: nat, more: seq<Step>, t: State)
    requires Reaches(INIT, steps, s) && 0 < i && PendingFor(s, i) && !s.core.closed
    requires Reaches(Begin(s, s.calls[i].id), more, t)
    ensures i < |t.calls| && t.calls[i].log == [] && !Enabled(t, Receive(i))
    ensures t.calls[i].phase.Waiting? ==> Enabled(t, Timeout(i)) && Enabled(t, Cancel(i))
    ensures t.calls[i].phase.Done? ==> t.calls[i].phase.outcome.Failure?
  {
    DuplicateStrandsIff(steps, s, i);
    StrandedForGood(Begin(s, s.calls[i].id), i, more, t);
  }

  /** A second Close returns at once: the caller is still waiting, without a message. */
  lemma RepeatedCloseDoesNotWait() returns (steps: seq<Step>, s: State)
    ensures Reaches(INIT, steps, s) && |s.calls| == 2
    ensures s.repeatedCloseReturned && !s.closer.Closed? && s.calls[1].phase.Waiting? && s.calls[1].log == []
  {
    var p0 := ReachOneWaiting("a");
    var s0 := OneWaiting("a");
    OneMoreStep(INIT, p0, s0, Close);
    var p1, s1 := p0 + [Close], Apply(s0, Close);
    OneMoreStep(INIT, p1, s1, Close);
    steps, s := p1 + [Close], Apply(s1, Close);
  }
}
