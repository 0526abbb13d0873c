/** The ASR worker: a bounded admission queue, a fixed pool of goroutines and two
    one-place reply channels a job, as a step system. Jobs are numbered in admission
    order. Shutdown ends admissions. */
module WorkerPool {
  import opened Wrappers

  datatype Error = Canceled | DeadlineExceeded | RuntimeError(text: string)

  datatype Outcome = Transcribed(text: string) | Failed(error: Error)

  datatype Caller = Selecting | Returned(outcome: Outcome)

  /** One queued call. `sent` is the history of both channels together. */
  datatype Job = Job(
    ctxErr: Option<Error>,
    cancelled: bool,
    resultCh: seq<string>,
    errCh: seq<Error>,
    caller: Caller,
    sent: seq<Outcome>)

  /** What one pool goroutine is doing. */
  datatype Slot =
    | Idle
    | Pulled(j: nat) | Entered(j: nat) | Screened(j: nat) | Running(j: nat)
    | Sending(j: nat, outcome: Outcome)
    | Sent(j: nat) | Left(j: nat)
    | Stopped

  datatype State = State(
    depth: nat,
    queue: seq<nat>,
    slots: seq<Slot>,
    jobs: seq<Job>,
    pulled: nat,
    closed: bool,
    inflight: int,
    completed: nat,
    saturated: nat)

  function New(depth: nat, maxInflight: nat): State {
    State(depth, [], seq(maxInflight, i => Idle), [], 0, false, 0, 0, 0)
  }

  datatype Step =
    | Admit(ctxErr: Option<Error>) | RejectSaturated | ContextDone(j: nat, err: Error)
    | GiveUp(j: nat) | TakeResult(j: nat) | TakeError(j: nat)
    | Pull(k: nat) | Enter(k: nat) | Screen(k: nat) | CheckContext(k: nat)
    | Transcribe(k: nat, outcome: Outcome) | Send(k: nat) | Exit(k: nat) | Complete(k: nat) | Stop(k: nat)
    | Close

  predicate IsJob(s: State, j: nat) {
    j < |s.jobs|
  }

  /** A channel send is enabled only where the channel has room. */
  predicate HasRoom(job: Job, outcome: Outcome) {
    match outcome
    case Transcribed(_) => job.resultCh == []
    case Failed(_) => job.errCh == []
  }

  predicate Enabled(s: State, step: Step) {
    match step
    case Admit(_) => !s.closed && |s.queue| < s.depth
    case RejectSaturated => !s.closed && |s.queue| == s.depth
    case ContextDone(j, _) => IsJob(s, j) && s.jobs[j].ctxErr.None?
    case GiveUp(j) => IsJob(s, j) && s.jobs[j].caller.Selecting? && s.jobs[j].ctxErr.Some?
    case TakeResult(j) => IsJob(s, j) && s.jobs[j].caller.Selecting? && s.jobs[j].resultCh != []
    case TakeError(j) => IsJob(s, j) && s.jobs[j].caller.Selecting? && s.jobs[j].errCh != []
    case Pull(k) => k < |s.slots| && s.slots[k].Idle? && s.queue != []
    case Enter(k) => k < |s.slots| && s.slots[k].Pulled?
    case Screen(k) => k < |s.slots| && s.slots[k].Entered? && IsJob(s, s.slots[k].j)
    case CheckContext(k) => k < |s.slots| && s.slots[k].Screened? && IsJob(s, s.slots[k].j)
    case Transcribe(k, _) => k < |s.slots| && s.slots[k].Running?
    case Send(k) =>
      && k < |s.slots| && s.slots[k].Sending? && IsJob(s, s.slots[k].j)
      && HasRoom(s.jobs[s.slots[k].j], s.slots[k].outcome)
    case Exit(k) => k < |s.slots| && s.slots[k].Sent?
    case Complete(k) => k < |s.slots| && s.slots[k].Left?
    case Stop(k) => k < |s.slots| && s.slots[k].Idle? && s.queue == [] && s.closed
    case Close => !s.closed
  }

  function Put(job: Job, outcome: Outcome): Job {
    match outcome
    case Transcribed(text) => job.(resultCh := job.resultCh + [text], sent := job.sent + [outcome])
    case Failed(error) => job.(errCh := job.errCh + [error], sent := job.sent + [outcome])
  }

  function Apply(s: State, step: Step): State
    requires Enabled(s, step)
  {
    match step
    case Admit(ctxErr) =>
      s.(jobs := s.jobs + [Job(ctxErr, false, [], [], Selecting, [])], queue := s.queue + [|s.jobs|])
    case RejectSaturated => s.(saturated := s.saturated + 1)
    case ContextDone(j, err) => s.(jobs := s.jobs[j := s.jobs[j].(ctxErr := Some(err))])
    case GiveUp(j) =>
      s.(jobs := s.jobs[j := s.jobs[j].(cancelled := true, caller := Returned(Failed(s.jobs[j].ctxErr.value)))])
    case TakeResult(j) =>
      s.(jobs := s.jobs[j := s.jobs[j].(caller := Returned(Transcribed(s.jobs[j].resultCh[0])), resultCh := s.jobs[j].resultCh[1..])])
    case TakeError(j) =>
      s.(jobs := s.jobs[j := s.jobs[j].(caller := Returned(Failed(s.jobs[j].errCh[0])), errCh := s.jobs[j].errCh[1..])])
    case Pull(k) => s.(slots := s.slots[k := Pulled(s.queue[0])], queue := s.queue[1..], pulled := s.pulled + 1)
    case Enter(k) => s.(slots := s.slots[k := Entered(s.slots[k].j)], inflight := s.inflight + 1)
    case Screen(k) =>
      var j := s.slots[k].j;
      s.(slots := s.slots[k := if s.jobs[j].cancelled then Sending(j, Failed(Canceled)) else Screened(j)])
    case CheckContext(k) =>
      var j := s.slots[k].j;
      s.(slots := s.slots[k := if s.jobs[j].ctxErr.Some? then Sending(j, Failed(s.jobs[j].ctxErr.value)) else Running(j)])
    case Transcribe(k, outcome) => s.(slots := s.slots[k := Sending(s.slots[k].j, outcome)])
    case Send(k) =>
      var j := s.slots[k].j;
      s.(slots := s.slots[k := Sent(j)], jobs := s.jobs[j := Put(s.jobs[j], s.slots[k].outcome)])
    case Exit(k) => s.(slots := s.slots[k := Left(s.slots[k].j)], inflight := s.inflight - 1)
    case Complete(k) => s.(slots := s.slots[k := Idle], completed := s.completed + 1)
    case Stop(k) => s.(slots := s.slots[k := Stopped])
    case Close => s.(closed := true)
  }

  ghost predicate Reaches(s: State, steps: seq<Step>, t: State)
    decreases |steps|
  {
    if steps == [] then s == t
    else Enabled(s, steps[0]) && Reaches(Apply(s, steps[0]), steps[1..], t)
  }

  // ---------------------------------------------------------------- counting

  predicate Holds(slot: Slot) {
    slot.Pulled? || slot.Entered? || slot.Screened? || slot.Running? || slot.Sending?
  }

  predicate Counted(slot: Slot) {
    (Holds(slot) && !slot.Pulled?) || slot.Sent?
  }

  predicate Unaccounted(slot: Slot) {
    slot.Sent? || slot.Left?
  }

  predicate Finished(job: Job) {
    job.sent != []
  }

  function Tally<T>(xs: seq<T>, p: T -> bool): nat {
    if xs == [] then 0 else (if p(xs[0]) then 1 else 0) + Tally(xs[1..], p)
  }

  lemma {:induction false} TallyUpdate<T>(xs: seq<T>, p: T -> bool, k: nat, x: T)
    requires k < |xs|
    ensures Tally(xs[k := x], p) + (if p(xs[k]) then 1 else 0) == Tally(xs, p) + (if p(x) then 1 else 0)
  {
    if k == 0 {
      assert xs[k := x][1..] == xs[1..];
    } else {
      assert xs[k := x][1..] == xs[1..][k - 1 := x];
      TallyUpdate(xs[1..], p, k - 1, x);
    }
  }

  lemma {:induction false} TallyAppend<T>(xs: seq<T>, p: T -> bool, x: T)
    ensures Tally(xs + [x], p) == Tally(xs, p) + if p(x) then 1 else 0
  {
    if xs == [] {
      assert (xs + [x])[1..] == [];
    } else {
      assert (xs + [x])[1..] == xs[1..] + [x];
      TallyAppend(xs[1..], p, x);
    }
  }

  lemma {:induction false} TallyBounds<T>(xs: seq<T>, p: T -> bool)
    ensures Tally(xs, p) <= |xs|
    ensures (forall i :: 0 <= i < |xs| ==> p(xs[i])) ==> Tally(xs, p) == |xs|
    ensures (forall i :: 0 <= i < |xs| ==> !p(xs[i])) ==> Tally(xs, p) == 0
  {
    if xs != [] {
      TallyBounds(xs[1..], p);
    }
  }

  function Held(s: State): nat { Tally(s.slots, (slot: Slot) => Holds(slot)) }

  function Finishes(s: State): nat { Tally(s.jobs, (job: Job) => Finished(job)) }

  // --------------------------------------------------------------- invariant

  /** A job's channels hold exactly what has been sent and not yet taken; its caller
      returned either that one message or its own context's error. */
  predicate JobOk(job: Job) {
    && |job.sent| <= 1
    && (job.sent == [] ==> job.resultCh == [] && job.errCh == [])
    && (job.sent != [] && job.caller.Selecting? ==>
          match job.sent[0]
          case Transcribed(text) => job.resultCh == [text] && job.errCh == []
          case Failed(error) => job.resultCh == [] && job.errCh == [error])
    && (job.caller.Returned? ==>
          || job.sent == [job.caller.outcome]
          || (job.cancelled && job.ctxErr.Some? && job.caller.outcome == Failed(job.ctxErr.value)))
    && (job.cancelled ==> job.caller.Returned?)
  }

  predicate SlotOk(s: State, k: nat)
    requires k < |s.slots|
  {
    var slot := s.slots[k];
    && (Holds(slot) ==> slot.j < s.pulled <= |s.jobs| && s.jobs[slot.j].sent == [])
    && (slot.Stopped? ==> s.closed && s.queue == [])
  }

  ghost predicate Inv(s: State) {
    && s.pulled <= |s.jobs|
    && s.queue == seq(|s.jobs| - s.pulled, i => s.pulled + i)
    && |s.queue| <= s.depth
    && (forall k {:trigger SlotOk(s, k)} :: 0 <= k < |s.slots| ==> SlotOk(s, k))
    && (forall k, m :: 0 <= k < m < |s.slots| && Holds(s.slots[k]) && Holds(s.slots[m]) ==> s.slots[k].j != s.slots[m].j)
    && (forall j :: 0 <= j < |s.jobs| ==> JobOk(s.jobs[j]))
    && (forall j :: s.pulled <= j < |s.jobs| ==> s.jobs[j].sent == [])
    && s.pulled == Held(s) + Finishes(s)
    && s.inflight == Tally(s.slots, (slot: Slot) => Counted(slot))
    && s.completed + Tally(s.slots, (slot: Slot) => Unaccounted(slot)) == Finishes(s)
  }

  lemma NewKeepsInv(depth: nat, maxInflight: nat)
    ensures Inv(New(depth, maxInflight))
  {
    var s := New(depth, maxInflight);
    TallyBounds(s.slots, (slot: Slot) => Holds(slot));
    TallyBounds(s.slots, (slot: Slot) => Counted(slot));
    TallyBounds(s.slots, (slot: Slot) => Unaccounted(slot));
  }

  lemma SlotTallies(s: State, k: nat, x: Slot)
    requires k < |s.slots|
    ensures var t := s.slots[k := x];
            && Tally(t, (slot: Slot) => Holds(slot)) + (if Holds(s.slots[k]) then 1 else 0) == Held(s) + (if Holds(x) then 1 else 0)
            && Tally(t, (slot: Slot) => Counted(slot)) + (if Counted(s.slots[k]) then 1 else 0)
               == Tally(s.slots, (slot: Slot) => Counted(slot)) + (if Counted(x) then 1 else 0)
            && Tally(t, (slot: Slot) => Unaccounted(slot)) + (if Unaccounted(s.slots[k]) then 1 else 0)
               == Tally(s.slots, (slot: Slot) => Unaccounted(slot)) + (if Unaccounted(x) then 1 else 0)
  {
    TallyUpdate(s.slots, (slot: Slot) => Holds(slot), k, x);
    TallyUpdate(s.slots, (slot: Slot) => Counted(slot), k, x);
    TallyUpdate(s.slots, (slot: Slot) => Unaccounted(slot), k, x);
  }

  /** The caller's steps and the clock's: one job changes, nothing is sent. */
  lemma JobStepKeepsInv(s: State, step: Step, j: nat)
    requires Inv(s) && Enabled(s, step)
    requires step == GiveUp(j) || step == TakeResult(j) || step == TakeError(j) || (step.ContextDone? && step.j == j)
    ensures Inv(Apply(s, step))
  {
    var t := Apply(s, step);
    assert JobOk(s.jobs[j]);
    assert JobOk(t.jobs[j]) && t.jobs[j].sent == s.jobs[j].sent && t == s.(jobs := s.jobs[j := t.jobs[j]]);
    hide Apply, Enabled, JobOk;
    JobReplaced(s, j, t.jobs[j]);
  }

  lemma JobReplaced(s: State, j: nat, job: Job)
    requires Inv(s) && j < |s.jobs| && JobOk(job) && job.sent == s.jobs[j].sent
    ensures Inv(s.(jobs := s.jobs[j := job]))
  {
    hide JobOk;
    var t := s.(jobs := s.jobs[j := job]);
    TallyUpdate(s.jobs, (job: Job) => Finished(job), j, job);
    forall k | 0 <= k < |t.slots| ensures SlotOk(t, k) {
      assert SlotOk(s, k);
    }
  }

  /** A goroutine moves on with the same job, or with none, and its counters follow. */
  lemma SlotMoveKeepsInv(s: State, k: nat, x: Slot, inflight: int, completed: nat)
    requires Inv(s) && k < |s.slots|
    requires Holds(x) == Holds(s.slots[k]) && (Holds(x) ==> x.j == s.slots[k].j)
    requires x.Stopped? ==> s.closed && s.queue == []
    requires inflight - s.inflight == (if Counted(x) then 1 else 0) - (if Counted(s.slots[k]) then 1 else 0)
    requires completed - s.completed == (if Unaccounted(s.slots[k]) then 1 else 0) - (if Unaccounted(x) then 1 else 0)
    ensures Inv(s.(slots := s.slots[k := x], inflight := inflight, completed := completed))
  {
    var t := s.(slots := s.slots[k := x], inflight := inflight, completed := completed);
    SlotTallies(s, k, x);
    forall m | 0 <= m < |t.slots| ensures SlotOk(t, m) {
      assert SlotOk(s, m);
    }
  }

  lemma PullKeepsInv(s: State, k: nat)
    requires Inv(s) && Enabled(s, Pull(k))
    ensures Inv(Apply(s, Pull(k)))
  {
    var t := Apply(s, Pull(k));
    SlotTallies(s, k, Pulled(s.queue[0]));
    forall m | 0 <= m < |t.slots|
      ensures SlotOk(t, m)
      ensures m != k && Holds(t.slots[m]) ==> t.slots[m].j != s.queue[0]
    {
      assert SlotOk(s, m);
    }
  }

  lemma SendKeepsInv(s: State, k: nat)
    requires Inv(s) && k < |s.slots| && s.slots[k].Sending?
    ensures Enabled(s, Send(k)) && Inv(Apply(s, Send(k)))
  {
    assert SlotOk(s, k);
    var j := s.slots[k].j;
    assert JobOk(s.jobs[j]);
    var t := Apply(s, Send(k));
    SlotTallies(s, k, Sent(j));
    TallyUpdate(s.jobs, (job: Job) => Finished(job), j, t.jobs[j]);
    forall m | 0 <= m < |t.slots| ensures SlotOk(t, m) {
      assert SlotOk(s, m);
    }
  }

  lemma AdmitKeepsInv(s: State, ctxErr: Option<Error>)
    requires Inv(s) && Enabled(s, Admit(ctxErr))
    ensures Inv(Apply(s, Admit(ctxErr)))
  {
    var t := Apply(s, Admit(ctxErr));
    TallyAppend(s.jobs, (job: Job) => Finished(job), t.jobs[|s.jobs|]);
    forall m | 0 <= m < |t.slots| ensures SlotOk(t, m) {
      assert SlotOk(s, m);
    }
  }

  lemma GateStepKeepsInv(s: State, step: Step)
    requires Inv(s) && Enabled(s, step) && (step.RejectSaturated? || step.Close?)
    ensures Inv(Apply(s, step))
  {
    forall m | 0 <= m < |s.slots| ensures SlotOk(Apply(s, step), m) {
      assert SlotOk(s, m);
    }
  }

  predicate IsSlotMove(step: Step) {
    step.Enter? || step.Screen? || step.CheckContext? || step.Transcribe? || step.Exit? || step.Complete? || step.Stop?
  }

  lemma SlotStepKeepsInv(s: State, step: Step)
    requires Inv(s) && Enabled(s, step) && IsSlotMove(step)
    ensures Inv(Apply(s, step))
  {
    var t := Apply(s, step);
    SlotMoveKeepsInv(s, step.k, t.slots[step.k], t.inflight, t.completed);
    assert t == s.(slots := s.slots[step.k := t.slots[step.k]], inflight := t.inflight, completed := t.completed);
  }

  lemma StepKeepsInv(s: State, step: Step)
    requires Inv(s) && Enabled(s, step)
    ensures Inv(Apply(s, step))
  {
    match step
    case Admit(ctxErr) => AdmitKeepsInv(s, ctxErr);
    case RejectSaturated => GateStepKeepsInv(s, step);
    case Close => GateStepKeepsInv(s, step);
    case ContextDone(j, _) => JobStepKeepsInv(s, step, j);
    case GiveUp(j) => JobStepKeepsInv(s, step, j);
    case TakeResult(j) => JobStepKeepsInv(s, step, j);
    case TakeError(j) => JobStepKeepsInv(s, step, j);
    case Send(k) => SendKeepsInv(s, k);
    case Pull(k) => PullKeepsInv(s, k);
    case _ => SlotStepKeepsInv(s, step);
  }

  lemma {:induction false} RunKeepsInv(s: State, steps: seq<Step>, t: State)
    requires Inv(s) && Reaches(s, steps, t)
    ensures Inv(t) && t.depth == s.depth && |t.slots| == |s.slots|
    decreases |steps|
  {
    if steps != [] {
      StepKeepsInv(s, steps[0]);
      RunKeepsInv(Apply(s, steps[0]), steps[1..], t);
    }
  }

  lemma ReachableInv(depth: nat, maxInflight: nat, steps: seq<Step>, s: State)
    requires Reaches(New(depth, maxInflight), steps, s)
    ensures Inv(s) && s.depth == depth && |s.slots| == maxInflight
  {
    NewKeepsInv(depth, maxInflight);
    RunKeepsInv(New(depth, maxInflight), steps, s);
  }

  // ------------------------------------------------------------ main results

  /** Every admitted job is queued, held by one goroutine or finished, and the counters
      agree; at most depth + maxInflight are outstanding. */
  lemma JobsConserved(depth: nat, maxInflight: nat, steps: seq<Step>, s: State)
    requires Reaches(New(depth, maxInflight), steps, s)
    ensures |s.jobs| == |s.queue| + Held(s) + Finishes(s)
    ensures |s.queue| + Held(s) <= depth + maxInflight
    ensures 0 <= s.inflight <= maxInflight && s.completed <= Finishes(s)
  {
    ReachableInv(depth, maxInflight, steps, s);
    TallyBounds(s.slots, (slot: Slot) => Holds(slot));
    TallyBounds(s.slots, (slot: Slot) => Counted(slot));
  }

  /** Jobs leave the queue in the order they were admitted. */
  lemma Fifo(depth: nat, maxInflight: nat, steps: seq<Step>, s: State, k: nat)
    requires Reaches(New(depth, maxInflight), steps, s) && Enabled(s, Pull(k))
    ensures Apply(s, Pull(k)).slots[k] == Pulled(s.pulled)
    ensures forall j :: j in s.queue <==> s.pulled <= j < |s.jobs|
    ensures forall m :: 0 <= m < |s.slots| && Holds(s.slots[m]) ==> s.slots[m].j < s.pulled
  {
    ReachableInv(depth, maxInflight, steps, s);
    forall m | 0 <= m < |s.slots| && Holds(s.slots[m]) ensures s.slots[m].j < s.pulled {
      assert SlotOk(s, m);
    }
    forall j ensures j in s.queue <==> s.pulled <= j < |s.jobs| {
      if s.pulled <= j < |s.jobs| {
        assert s.queue[j - s.pulled] == j;
      }
    }
  }

  /** A job's two channels together receive at most one message, and its caller returns
      that message or its own context's error. A job whose caller is still selecting and
      that has finished has its message waiting on exactly one channel. */
  lemma OneMessageAJob(depth: nat, maxInflight: nat, steps: seq<Step>, s: State, j: nat)
    requires Reaches(New(depth, maxInflight), steps, s) && j < |s.jobs|
    ensures |s.jobs[j].sent| <= 1
    ensures Finished(s.jobs[j]) && s.jobs[j].caller.Selecting? ==>
              |s.jobs[j].resultCh| + |s.jobs[j].errCh| == 1 && (Enabled(s, TakeResult(j)) || Enabled(s, TakeError(j)))
    ensures s.jobs[j].caller.Returned? ==>
              || s.jobs[j].sent == [s.jobs[j].caller.outcome]
              || (s.jobs[j].ctxErr.Some? && s.jobs[j].caller.outcome == Failed(s.jobs[j].ctxErr.value))
  {
    ReachableInv(depth, maxInflight, steps, s);
    assert JobOk(s.jobs[j]);
  }

  /** The message a goroutine sends is the outcome of the job it holds, and it never
      waits for room. */
  lemma SendNeverBlocks(depth: nat, maxInflight: nat, steps: seq<Step>, s: State, k: nat)
    requires Reaches(New(depth, maxInflight), steps, s) && k < |s.slots| && s.slots[k].Sending?
    ensures Enabled(s, Send(k))
    ensures Apply(s, Send(k)).jobs[s.slots[k].j].sent == [s.slots[k].outcome]
    ensures forall j :: 0 <= j < |s.jobs| && j != s.slots[k].j ==> Apply(s, Send(k)).jobs[j] == s.jobs[j]
  {
    ReachableInv(depth, maxInflight, steps, s);
    assert SlotOk(s, k);
    SendKeepsInv(s, k);
  }

  /** Every goroutine that has not stopped can move, except an idle one that finds the
      queue open and empty. */
  lemma NoGoroutineStuck(depth: nat, maxInflight: nat, steps: seq<Step>, s: State, k: nat)
    requires Reaches(New(depth, maxInflight), steps, s) && k < |s.slots| && !s.slots[k].Stopped?
    requires s.slots[k].Idle? ==> s.queue != [] || s.closed
    ensures exists step :: Enabled(s, step) && Apply(s, step).slots[k] != s.slots[k]
  {
    ReachableInv(depth, maxInflight, steps, s);
    assert SlotOk(s, k);
    var step := match s.slots[k]
      case Idle => if s.queue != [] then Pull(k) else Stop(k)
      case Pulled(_) => Enter(k)
      case Entered(_) => Screen(k)
      case Screened(_) => CheckContext(k)
      case Running(_) => Transcribe(k, Transcribed(""))
      case Sending(_, _) => Send(k)
      case Sent(_) => Exit(k)
      case Left(_) => Complete(k)
      case Stopped => Close;
    if s.slots[k].Sending? {
      SendKeepsInv(s, k);
    }
    assert Enabled(s, step) && Apply(s, step).slots[k] != s.slots[k];
  }

  /** When the whole pool has stopped, every admitted job has its message. */
  lemma DrainedAfterShutdown(depth: nat, maxInflight: nat, steps: seq<Step>, s: State)
    requires 0 < maxInflight && Reaches(New(depth, maxInflight), steps, s)
    requires forall k :: 0 <= k < |s.slots| ==> s.slots[k].Stopped?
    ensures s.closed && s.queue == [] && s.inflight == 0 && s.completed == |s.jobs|
    ensures forall j :: 0 <= j < |s.jobs| ==> |s.jobs[j].sent| == 1
  {
    ReachableInv(depth, maxInflight, steps, s);
    assert SlotOk(s, 0);
    TallyBounds(s.slots, (slot: Slot) => Holds(slot));
    TallyBounds(s.slots, (slot: Slot) => Counted(slot));
    TallyBounds(s.slots, (slot: Slot) => Unaccounted(slot));
    forall j | 0 <= j < |s.jobs| ensures |s.jobs[j].sent| == 1 {
      assert JobOk(s.jobs[j]);
      FullTally(s.jobs, (job: Job) => Finished(job), j);
    }
  }

  lemma {:induction false} FullTally<T>(xs: seq<T>, p: T -> bool, i: nat)
    requires i < |xs| && Tally(xs, p) == |xs|
    ensures p(xs[i])
  {
    TallyBounds(xs[1..], p);
    if i > 0 {
      FullTally(xs[1..], p, i - 1);
    }
  }

  // ---------------------------------------------------- the bound is attained

  lemma {:induction false} Chain(s: State, a: seq<Step>, m: State, b: seq<Step>, t: State)
    requires Reaches(s, a, m) && Reaches(m, b, t)
    ensures Reaches(s, a + b, t)
    decreases |a|
  {
    if a == [] {
      assert a + b == b;
    } else {
      assert (a + b)[1..] == a[1..] + b;
      Chain(Apply(s, a[0]), a[1..], m, b, t);
    }
  }

  /** `held` goroutines hold the first jobs and `queued` jobs wait behind them. */
  ghost predicate Loaded(s: State, depth: nat, maxInflight: nat, held: nat, queued: nat) {
    && !s.closed && s.depth == depth && |s.slots| == maxInflight && held <= maxInflight && |s.queue| == queued
    && (forall k :: 0 <= k < held ==> s.slots[k].Pulled?)
    && (forall k :: held <= k < maxInflight ==> s.slots[k].Idle?)
  }

  lemma {:induction false} ReachLoaded(depth: nat, maxInflight: nat, held: nat, queued: nat)
    returns (steps: seq<Step>, s: State)
    requires held <= maxInflight && queued <= depth && 0 < depth
    ensures Reaches(New(depth, maxInflight), steps, s) && Loaded(s, depth, maxInflight, held, queued)
    decreases held + queued
  {
    if queued > 0 {
      var before, s0 := ReachLoaded(depth, maxInflight, held, queued - 1);
      s := Apply(s0, Admit(None));
      assert Reaches(s, [], s);
      Chain(New(depth, maxInflight), before, s0, [Admit(None)], s);
      steps := before + [Admit(None)];
    } else if held > 0 {
      var before, s0 := ReachLoaded(depth, maxInflight, held - 1, 0);
      var s1 := Apply(s0, Admit(None));
      s := Apply(s1, Pull(held - 1));
      assert Reaches(s, [], s);
      assert Reaches(s1, [Pull(held - 1)], s);
      Chain(New(depth, maxInflight), before, s0, [Admit(None), Pull(held - 1)], s);
      steps := before + [Admit(None), Pull(held - 1)];
    } else {
      steps, s := [], New(depth, maxInflight);
    }
  }

  /** The bound on outstanding jobs is depth + maxInflight and not depth: it is reached
      for every configuration. */
  lemma BoundIsTight(depth: nat, maxInflight: nat) returns (steps: seq<Step>, s: State)
    requires 0 < maxInflight <= depth
    ensures Reaches(New(depth, maxInflight), steps, s)
    ensures |s.queue| + Held(s) == depth + maxInflight && depth < |s.queue| + Held(s)
  {
    steps, s := ReachLoaded(depth, maxInflight, maxInflight, depth);
    TallyBounds(s.slots, (slot: Slot) => Holds(slot));
  }

  // -------------------------------------------------------------- the object

  const DEFAULT_QUEUE_DEPTH := 8
  const DEFAULT_MAX_INFLIGHT := 2

  datatype Rejection = WorkerShutdown | WorkerNotReady | LanguageUnsupported | ContextEnded(error: Error) | QueueSaturated

  datatype ConfigError = RuntimeRequired | PoolWiderThanQueue

  /** Construction needs a runtime, keeps positive sizes, replaces others by the defaults, and
      refuses a pool wider than its queue. */
  function Configure(hasRuntime: bool, queueDepth: int, maxInFlight: int): (r: Result<(nat, nat), ConfigError>)
    ensures r == Err(RuntimeRequired) <==> !hasRuntime
    ensures r.Ok? ==> 0 < r.value.1 <= r.value.0
    ensures r.Ok? ==> r.value.0 == queueDepth || (queueDepth <= 0 && r.value.0 == DEFAULT_QUEUE_DEPTH)
    ensures r.Ok? ==> r.value.1 == maxInFlight || (maxInFlight <= 0 && r.value.1 == DEFAULT_MAX_INFLIGHT)
    ensures hasRuntime ==>
              (r.Err? <==> (if maxInFlight <= 0 then DEFAULT_MAX_INFLIGHT else maxInFlight)
                           > (if queueDepth <= 0 then DEFAULT_QUEUE_DEPTH else queueDepth))
  {
    var depth := if queueDepth <= 0 then DEFAULT_QUEUE_DEPTH else queueDepth;
    var inflight := if maxInFlight <= 0 then DEFAULT_MAX_INFLIGHT else maxInFlight;
    if !hasRuntime then Err(RuntimeRequired)
    else if inflight > depth then Err(PoolWiderThanQueue)
    else Ok((depth, inflight))
  }

  class Worker {
    const depth: nat
    const neverScanned: bool
    var queue: seq<nat>
    var slots: seq<Slot>
    var jobs: seq<Job>
    var pulled: nat
    var closed: bool
    var inflight: int
    var completed: nat
    var saturated: nat
    var ready: bool
    var warm: bool

    ghost function View(): State
      reads this
    {
      State(depth, queue, slots, jobs, pulled, closed, inflight, completed, saturated)
    }

    constructor (depth: nat, maxInflight: nat, neverScanned: bool)
      requires 0 < maxInflight <= depth
      ensures View() == New(depth, maxInflight) && !ready && !warm && this.neverScanned == neverScanned
    {
      this.depth, this.neverScanned := depth, neverScanned;
      queue, slots, jobs, pulled, closed := [], seq(maxInflight, i => Idle), [], 0, false;
      inflight, completed, saturated, ready, warm := 0, 0, 0, false, false;
    }

    predicate IsShutdown()
      reads this
    {
      !ready && !warm && completed > 0 && neverScanned
    }

    /** Dispatch up to the reply wait. `contextFirst` settles the select when both the
        context and the queue are ready. After Shutdown the refusal reads "shutting down"
        only if a job has completed and the inventory was never scanned. */
    method Submit(supported: bool, ctxErr: Option<Error>, contextFirst: bool) returns (r: Result<nat, Rejection>)
      requires |queue| <= depth && (ready ==> !closed)
      modifies this
      ensures match r
              case Ok(j) => j == old(|jobs|) && Enabled(old(View()), Admit(ctxErr)) && View() == Apply(old(View()), Admit(ctxErr))
              case Err(QueueSaturated) =>
                ctxErr.None? && Enabled(old(View()), RejectSaturated) && View() == Apply(old(View()), RejectSaturated)
              case Err(_) => View() == old(View())
      ensures old(ready) && !supported ==> r == Err(LanguageUnsupported)
      ensures old(ready) && supported && (ctxErr.None? || !contextFirst) && |old(queue)| < depth ==> r.Ok?
      ensures old(ready) && supported && ctxErr.None? && |old(queue)| == depth ==> r == Err(QueueSaturated)
      ensures old(ready) && supported && ctxErr.Some? && (contextFirst || |old(queue)| == depth) ==>
                r == Err(ContextEnded(ctxErr.value))
      ensures !old(ready) ==>
                r == Err(if !old(warm) && old(completed) > 0 && neverScanned then WorkerShutdown else WorkerNotReady)
      ensures saturated == old(saturated) + (if r == Err(QueueSaturated) then 1 else 0)
      ensures ready == old(ready) && warm == old(warm)
    {
      if IsShutdown() {
        return Err(WorkerShutdown);
      }
      if !ready {
        return Err(WorkerNotReady);
      }
      if !supported {
        return Err(LanguageUnsupported);
      }
      if ctxErr.Some? && (contextFirst || |queue| == depth) {
        return Err(ContextEnded(ctxErr.value));
      }
      if |queue| < depth {
        var j := |jobs|;
        jobs := jobs + [Job(ctxErr, false, [], [], Selecting, [])];
        queue := queue + [j];
        return Ok(j);
      }
      saturated := saturated + 1;
      r := Err(QueueSaturated);
    }

    /** The outcome a job gets: its cancellation, its context's error, or the runtime's. */
    static function Verdict(job: Job, runtime: Outcome): Outcome {
      if job.cancelled then Failed(Canceled)
      else if job.ctxErr.Some? then Failed(job.ctxErr.value)
      else runtime
    }

    method HandleJob(j: nat, runtime: Outcome)
      requires j < |jobs| && HasRoom(jobs[j], Verdict(jobs[j], runtime))
      modifies this`jobs
      ensures jobs == old(jobs)[j := Put(old(jobs)[j], Verdict(old(jobs)[j], runtime))]
      ensures var was := old(jobs)[j];
              && (was.cancelled ==> jobs[j] == was.(errCh := was.errCh + [Canceled], sent := was.sent + [Failed(Canceled)]))
              && (!was.cancelled && was.ctxErr.Some? ==>
                    jobs[j] == was.(errCh := was.errCh + [was.ctxErr.value], sent := was.sent + [Failed(was.ctxErr.value)]))
              && (!was.cancelled && was.ctxErr.None? && runtime.Transcribed? ==>
                    jobs[j] == was.(resultCh := was.resultCh + [runtime.text], sent := was.sent + [runtime]))
              && (!was.cancelled && was.ctxErr.None? && runtime.Failed? ==>
                    jobs[j] == was.(errCh := was.errCh + [runtime.error], sent := was.sent + [runtime]))
    {
      var job := jobs[j];
      if job.cancelled {
        jobs := jobs[j := job.(errCh := job.errCh + [Canceled], sent := job.sent + [Failed(Canceled)])];
        return;
      }
      if job.ctxErr.Some? {
        var err := job.ctxErr.value;
        jobs := jobs[j := job.(errCh := job.errCh + [err], sent := job.sent + [Failed(err)])];
        return;
      }
      match runtime {
        case Failed(err) =>
          jobs := jobs[j := job.(errCh := job.errCh + [err], sent := job.sent + [runtime])];
        case Transcribed(text) =>
          jobs := jobs[j := job.(resultCh := job.resultCh + [text], sent := job.sent + [runtime])];
      }
    }

    /** One turn of goroutine `k`'s loop, undisturbed: it is a run of the step system,
        and it gives the oldest queued job its verdict. */
    method RunOne(k: nat, runtime: Outcome) returns (ghost run: seq<Step>)
      requires Inv(View()) && Enabled(View(), Pull(k))
      modifies this
      ensures Reaches(old(View()), run, View()) && Inv(View())
      ensures slots == old(slots) && queue == old(queue)[1..] && inflight == old(inflight) && completed == old(completed) + 1
      ensures var was := old(jobs)[old(pulled)];
              jobs[old(pulled)].sent == [if was.cancelled then Failed(Canceled)
                                         else if was.ctxErr.Some? then Failed(was.ctxErr.value) else runtime]
    {
      ghost var s0 := View();
      var j := queue[0];
      queue, pulled := queue[1..], pulled + 1;
      inflight := inflight + 1;
      assert JobOk(jobs[j]);
      hide Inv, Reaches, Apply;
      HandleJob(j, runtime);
      inflight := inflight - 1;
      completed := completed + 1;
      run := TurnIsARun(s0, k, runtime, View());
      RunKeepsInv(s0, run, View());
    }

    /** The first call ends admissions and lowers the flags; any later one does nothing. */
    method Shutdown()
      modifies this`closed, this`ready, this`warm
      ensures closed && (!old(closed) ==> View() == Apply(old(View()), Close) && !ready && !warm)
      ensures old(closed) ==> View() == old(View()) && ready == old(ready) && warm == old(warm)
    {
      if closed {
        return;
      }
      closed := true;
      ready, warm := false, false;
    }

    /** What a dispatch after Shutdown gets: the shutdown error only if a job has completed and
        the inventory was never scanned, and otherwise the error of a worker not yet ready. */
    method DispatchAfterShutdown(supported: bool, ctxErr: Option<Error>, contextFirst: bool) returns (r: Result<nat, Rejection>)
      requires |queue| <= depth && !closed
      modifies this
      ensures r == Err(if completed > 0 && neverScanned then WorkerShutdown else WorkerNotReady)
      ensures View() == Apply(old(View()), Close)
    {
      Shutdown();
      r := Submit(supported, ctxErr, contextFirst);
    }
  }

  /** From entering a job to holding its verdict. */
  lemma ScreenIsARun(s: State, k: nat, j: nat, runtime: Outcome) returns (run: seq<Step>)
    requires k < |s.slots| && j < |s.jobs| && s.slots[k] == Entered(j)
    ensures Reaches(s, run, s.(slots := s.slots[k := Sending(j, Worker.Verdict(s.jobs[j], runtime))]))
  {
    var job := s.jobs[j];
    var sending := s.(slots := s.slots[k := Sending(j, Worker.Verdict(job, runtime))]);
    var s3 := Apply(s, Screen(k));
    if job.cancelled {
      return [Screen(k)];
    }
    var s4 := Apply(s3, CheckContext(k));
    if job.ctxErr.Some? {
      assert Reaches(s3, [CheckContext(k)], sending);
      return [Screen(k), CheckContext(k)];
    }
    assert Reaches(s4, [Transcribe(k, runtime)], sending);
    assert Reaches(s3, [CheckContext(k), Transcribe(k, runtime)], sending);
    run := [Screen(k), CheckContext(k), Transcribe(k, runtime)];
  }

  /** From holding a verdict to being idle again. */
  lemma SendIsARun(s: State, k: nat, j: nat, verdict: Outcome)
    requires k < |s.slots| && j < |s.jobs| && s.slots[k] == Sending(j, verdict) && HasRoom(s.jobs[j], verdict)
    ensures Reaches(s, [Send(k), Exit(k), Complete(k)],
                    s.(slots := s.slots[k := Idle], jobs := s.jobs[j := Put(s.jobs[j], verdict)],
                       inflight := s.inflight - 1, completed := s.completed + 1))
  {
    var s1 := Apply(s, Send(k));
    var s2 := Apply(s1, Exit(k));
    var s3 := Apply(s2, Complete(k));
    assert Reaches(s2, [Complete(k)], s3);
    assert Reaches(s1, [Exit(k), Complete(k)], s3);
    assert s3.slots == s.slots[k := Idle];
  }

  lemma Chain3(s: State, a: seq<Step>, m: State, b: seq<Step>, n: State, c: seq<Step>, t: State)
    requires Reaches(s, a, m) && Reaches(m, b, n) && Reaches(n, c, t)
    ensures Reaches(s, a + (b + c), t)
  {
    Chain(m, b, n, c, t);
    Chain(s, a, m, b + c, t);
  }

  lemma EnterIsARun(s: State, k: nat)
    requires Enabled(s, Pull(k))
    ensures Reaches(s, [Pull(k), Enter(k)],
                    s.(slots := s.slots[k := Entered(s.queue[0])], queue := s.queue[1..], pulled := s.pulled + 1,
                       inflight := s.inflight + 1))
  {
  }

  lemma TurnIsARun(s: State, k: nat, runtime: Outcome, t: State) returns (run: seq<Step>)
    requires Enabled(s, Pull(k)) && s.queue[0] < |s.jobs|
    requires HasRoom(s.jobs[s.queue[0]], Worker.Verdict(s.jobs[s.queue[0]], runtime))
    requires var j := s.queue[0];
             t == s.(queue := s.queue[1..], pulled := s.pulled + 1, completed := s.completed + 1,
                     jobs := s.jobs[j := Put(s.jobs[j], Worker.Verdict(s.jobs[j], runtime))])
    ensures Reaches(s, run, t)
  {
    var j := s.queue[0];
    var verdict := Worker.Verdict(s.jobs[j], runtime);
    var slots := s.slots[k := Entered(j)];
    var s2 := s.(slots := slots, queue := s.queue[1..], pulled := s.pulled + 1, inflight := s.inflight + 1);
    EnterIsARun(s, k);
    assert s.slots[k].Idle?;
    hide Reaches, Apply, Enabled, HasRoom, Put, Worker.Verdict;
    var screen := ScreenIsARun(s2, k, j, runtime);
    var sending := s2.(slots := slots[k := Sending(j, verdict)]);
    SendIsARun(sending, k, j, verdict);
    assert slots[k := Sending(j, verdict)][k := Idle] == s.slots;
    Chain3(s, [Pull(k), Enter(k)], s2, screen, sending, [Send(k), Exit(k), Complete(k)], t);
    run := [Pull(k), Enter(k)] + (screen + [Send(k), Exit(k), Complete(k)]);
  }
}
