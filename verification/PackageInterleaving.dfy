/** Rollbacks and cancellations do part of their work outside the lock. Here they are
    broken up at every read and write of the shared dictionaries, and interleaved with
    each other and with previews and publications, which hold the lock throughout. */
module PackageInterleaving {
  import opened Wrappers
  import opened PackageService

  /** Where a call in flight is: `found` is the record it read first, `currentId` the
      identifier it read as active, `current` the record it read for that. */
  datatype Half =
    | RollbackFound(id: string, j: string, now: int, found: Record)
    | RollbackPicked(id: string, j: string, now: int, found: Record, currentId: string)
    | RollbackHolds(id: string, j: string, now: int, found: Record, currentId: string, current: Record)
    | RollbackReady(id: string, j: string, now: int, found: Record)
    | CancelFound(id: string, j: string, now: int, found: Record)
    | Over

  datatype System = System(store: Store, halves: seq<Half>)

  /** `Whole` is a preview or a publication, `Begin` the first read and the checks of a
      rollback or a cancellation, `Next` what call `k` does next. */
  datatype Step = Whole(op: Op) | Begin(op: Op) | Next(k: nat)

  predicate Enabled(sys: System, step: Step) {
    match step
    case Whole(op) => op.DoPreview? || op.DoPublish?
    case Begin(op) => op.DoRollback? || op.DoCancel?
    case Next(k) => k < |sys.halves| && !sys.halves[k].Over?
  }

  function Begun(s: Store, op: Op): Half
    requires Linked(s) && (op.DoRollback? || op.DoCancel?)
  {
    if Refused(s, op).Some? then Over
    else if op.DoRollback? then RollbackFound(op.id, op.jurisdiction, op.now, s.records[op.id])
    else CancelFound(op.id, op.jurisdiction, op.now, s.records[op.id])
  }

  /** The part of a rollback under the lock. */
  function Restore(s: Store, h: Half): Store
    requires h.RollbackReady?
  {
    Store(s.records[h.id := Record(h.found.package, Published, Some(h.now), None)], s.active[h.j := h.id])
  }

  /** The part of a cancellation under the lock. */
  function TakeOut(s: Store, h: Half): Store
    requires h.CancelFound?
  {
    Store(s.records[h.id := Record(h.found.package, Cancelled, h.found.publishedAt, Some(h.now))],
          if h.j in s.active && s.active[h.j] == h.id then s.active - {h.j} else s.active)
  }

  function NextStore(s: Store, h: Half): Store {
    match h
    case RollbackHolds(_, _, _, _, currentId, current) =>
      s.(records := s.records[currentId := Record(current.package, Superseded, current.publishedAt, None)])
    case RollbackReady(_, _, _, _) => Restore(s, h)
    case CancelFound(_, _, _, _) => TakeOut(s, h)
    case _ => s
  }

  function NextHalf(s: Store, h: Half): Half
    requires HalfOk(s, h)
  {
    match h
    case RollbackFound(id, j, now, found) =>
      if Displaces(s, id, j) then RollbackPicked(id, j, now, found, s.active[j]) else RollbackReady(id, j, now, found)
    case RollbackPicked(id, j, now, found, currentId) => RollbackHolds(id, j, now, found, currentId, s.records[currentId])
    case RollbackHolds(id, j, now, found, _, _) => RollbackReady(id, j, now, found)
    case _ => Over
  }

  function Apply(sys: System, step: Step): System
    requires SysInv(sys) && Enabled(sys, step)
  {
    match step
    case Whole(op) => sys.(store := Do(sys.store, op))
    case Begin(op) => sys.(halves := sys.halves + [Begun(sys.store, op)])
    case Next(k) => System(NextStore(sys.store, sys.halves[k]), sys.halves[k := NextHalf(sys.store, sys.halves[k])])
  }

  // ------------------------------------------------------------------- invariant

  /** What a call holds was once filed under the identifier it is about to write. */
  predicate HalfOk(s: Store, h: Half) {
    h.Over? ||
    (&& h.id in s.records && h.found.package.id == h.id && Validates(h.found.package, h.j)
     && (h.RollbackPicked? || h.RollbackHolds? ==> h.currentId in s.records && h.currentId != h.id)
     && (h.RollbackHolds? ==>
           h.current.package.id == h.currentId && Validates(h.current.package, h.current.package.jurisdiction)))
  }

  ghost predicate SysInv(sys: System) {
    Inv(sys.store) && forall k :: 0 <= k < |sys.halves| ==> HalfOk(sys.store, sys.halves[k])
  }

  /** Another package of the jurisdiction is in service when the rollback takes the lock:
      it was put there after the rollback looked. */
  predicate Overtaken(s: Store, h: Half)
    requires Linked(s)
  {
    && h.RollbackReady? && h.j in s.active && s.active[h.j] != h.id
    && s.records[s.active[h.j]].state.Published? && s.records[s.active[h.j]].package.jurisdiction == h.j
  }

  predicate InService(s: Store, id: string, j: string) {
    id in s.records && s.records[id].state.Published? && s.records[id].package.jurisdiction == j
  }

  ghost predicate OneInService(s: Store, j: string) {
    forall a, b :: InService(s, a, j) && InService(s, b, j) ==> a == b
  }

  /** The lock keeps the invariant, and with it one package in service, exactly when the
      rollback was not overtaken. */
  lemma RestoreIff(s: Store, h: Half)
    requires Inv(s) && HalfOk(s, h) && h.RollbackReady?
    ensures Inv(Restore(s, h)) <==> !Overtaken(s, h)
    ensures OneInService(Restore(s, h), h.j) <==> !Overtaken(s, h)
  {
    hide Blank;
    var t := Restore(s, h);
    if Overtaken(s, h) {
      var other := s.active[h.j];
      assert InService(t, other, h.j) && InService(t, h.id, h.j) && !Sound(t, other);
    } else {
      forall id | id in t.records
        ensures Sound(t, id)
      {
        assert id in s.records ==> Sound(s, id);
        assert InService(s, id, h.j) ==> s.active[h.j] == id;
      }
      assert forall a :: InService(t, a, h.j) ==> Sound(t, a);
    }
  }

  /** A cancellation keeps the invariant whatever came in between. */
  lemma TakeOutKeepsInv(s: Store, h: Half)
    requires Inv(s) && HalfOk(s, h) && h.CancelFound?
    ensures Inv(TakeOut(s, h))
  {
    hide Blank;
    var t := TakeOut(s, h);
    forall id | id in t.records
      ensures Sound(t, id)
    {
      assert id in s.records ==> Sound(s, id);
    }
  }

  /** But it is the cancellation of what is filed at that moment exactly when package and
      publication time are still those it read; otherwise it writes the old ones back. */
  lemma TakeOutIsCancelIff(s: Store, h: Half)
    requires Inv(s) && HalfOk(s, h) && h.CancelFound?
    ensures TakeOut(s, h) == Do(s, DoCancel(h.id, h.j, true, h.now))
       <==> s.records[h.id].package == h.found.package && s.records[h.id].publishedAt == h.found.publishedAt
  {
    hide Blank;
    var mine := Record(h.found.package, Cancelled, h.found.publishedAt, Some(h.now));
    assert TakeOut(s, h).records[h.id] == mine;
  }

  /** The write outside the lock keeps the invariant, though it may undo a publication. */
  lemma SupersedeKeepsInv(s: Store, h: Half)
    requires Inv(s) && HalfOk(s, h) && h.RollbackHolds?
    ensures Inv(NextStore(s, h))
  {
    hide Blank;
    var t := NextStore(s, h);
    forall id | id in t.records
      ensures Sound(t, id)
    {
      assert id in s.records ==> Sound(s, id);
    }
  }

  lemma HalvesStayOk(s: Store, t: Store, halves: seq<Half>)
    requires forall k :: 0 <= k < |halves| ==> HalfOk(s, halves[k])
    requires s.records.Keys <= t.records.Keys
    ensures forall k :: 0 <= k < |halves| ==> HalfOk(t, halves[k])
  {
    hide Blank;
  }

  lemma BegunOk(s: Store, op: Op)
    requires Inv(s) && (op.DoRollback? || op.DoCancel?)
    ensures HalfOk(s, Begun(s, op))
  {
    assert Refused(s, op).None? ==> Sound(s, op.id);
  }

  lemma NextHalfOk(s: Store, h: Half)
    requires Inv(s) && HalfOk(s, h)
    ensures HalfOk(s, NextHalf(s, h))
  {
    hide Blank;
    assert h.RollbackPicked? ==> Sound(s, h.currentId);
  }

  predicate RestoresLate(sys: System, step: Step)
    requires SysInv(sys) && Enabled(sys, step)
  {
    step.Next? && Overtaken(sys.store, sys.halves[step.k])
  }

  /** Of all the steps of all the calls, the overtaken rollback's is the one that breaks the
      invariant. */
  lemma StepIff(sys: System, step: Step)
    requires SysInv(sys) && Enabled(sys, step)
    ensures SysInv(Apply(sys, step)) <==> !RestoresLate(sys, step)
  {
    hide Sound, Validates;
    match step
    case Whole(op) =>
      StepKeepsInv(sys.store, op);
      HalvesStayOk(sys.store, Do(sys.store, op), sys.halves);
    case Begin(op) =>
      BegunOk(sys.store, op);
    case Next(k) =>
      var h := sys.halves[k];
      NextHalfOk(sys.store, h);
      HalvesStayOk(sys.store, NextStore(sys.store, h), sys.halves[k := NextHalf(sys.store, h)]);
      match h {
        case RollbackHolds(_, _, _, _, _, _) => SupersedeKeepsInv(sys.store, h);
        case RollbackReady(_, _, _, _) => RestoreIff(sys.store, h);
        case CancelFound(_, _, _, _) => TakeOutKeepsInv(sys.store, h);
        case _ =>
      }
  }

  // ------------------------------------------------------------------------ runs

  /** Every step can be taken where it stands, and none restores late. */
  ghost predicate NeverLate(sys: System, steps: seq<Step>)
    requires SysInv(sys)
    decreases |steps|
  {
    steps != [] ==>
      && Enabled(sys, steps[0]) && !RestoresLate(sys, steps[0])
      && (StepIff(sys, steps[0]); NeverLate(Apply(sys, steps[0]), steps[1..]))
  }

  /** `states` are the states the run goes through. */
  ghost predicate Passes(states: seq<System>, steps: seq<Step>) {
    && |states| == |steps| + 1
    && forall k :: 0 <= k < |steps| && SysInv(states[k]) ==> Enabled(states[k], steps[k]) && states[k + 1] == Apply(states[k], steps[k])
  }

  /** Any interleaving, to any depth, keeps one package in service in each jurisdiction at
      every moment if and only if no rollback in it is overtaken. */
  lemma {:induction false} SafeIff(states: seq<System>, steps: seq<Step>)
    requires Passes(states, steps) && SysInv(states[0])
    ensures (forall k :: 0 <= k < |states| ==> SysInv(states[k])) <==> NeverLate(states[0], steps)
    ensures (forall k, j :: 0 <= k < |states| ==> OneInService(states[k].store, j)) <==> NeverLate(states[0], steps)
    decreases |steps|
  {
    hide SysInv, Enabled, Apply, OneInService, RestoresLate;
    if steps == [] {
      InvServesOne(states[0]);
    } else {
      StepIff(states[0], steps[0]);
      InvServesOne(states[0]);
      if !RestoresLate(states[0], steps[0]) {
        assert Passes(states[1..], steps[1..]) by {
          assert forall k :: 0 <= k < |steps[1..]| ==> states[1..][k] == states[k + 1] && steps[1..][k] == steps[k + 1];
        }
        SafeIff(states[1..], steps[1..]);
        assert forall k :: 0 < k < |states| ==> states[k] == states[1..][k - 1];
        assert forall k :: 0 <= k < |states[1..]| ==> states[1..][k] == states[k + 1];
      } else {
        LateBreaks(states[0], steps[0]);
        assert !SysInv(states[1]);
      }
    }
  }

  lemma LateBreaks(sys: System, step: Step)
    requires SysInv(sys) && Enabled(sys, step) && RestoresLate(sys, step)
    ensures exists j :: !OneInService(Apply(sys, step).store, j)
  {
    hide Sound, Validates, OneInService;
    var h := sys.halves[step.k];
    RestoreIff(sys.store, h);
    assert !OneInService(Apply(sys, step).store, h.j);
  }

  lemma InvServesOne(sys: System)
    requires SysInv(sys)
    ensures forall j :: OneInService(sys.store, j)
  {
    hide Blank;
    forall j, a, b | InService(sys.store, a, j) && InService(sys.store, b, j)
      ensures a == b
    {
      assert Sound(sys.store, a) && Sound(sys.store, b);
    }
  }

  /** Undisturbed, the parts make up the whole call. */
  lemma RollbackInOneGo(s: Store, op: Op)
    requires Inv(s) && op.DoRollback? && Refused(s, op).None?
    ensures var h := Begun(s, op);
            && HalfOk(s, h)
            && var h1 := NextHalf(s, h);
               if Displaces(s, op.id, op.jurisdiction) then
                 && HalfOk(s, h1)
                 && var h2 := NextHalf(s, h1);
                    && HalfOk(s, h2)
                    && var h3 := NextHalf(s, h2);
                       h3.RollbackReady? && Restore(NextStore(s, h2), h3) == Do(s, op)
               else h1.RollbackReady? && Restore(s, h1) == Do(s, op)
  {
    BegunOk(s, op);
    NextHalfOk(s, Begun(s, op));
    NextHalfOk(s, NextHalf(s, Begun(s, op)));
  }

  /** The same for a cancellation; and either call, where it is refused, is over at once. */
  lemma CancelInOneGo(s: Store, op: Op)
    requires Inv(s) && (op.DoCancel? || op.DoRollback?)
    ensures Refused(s, op).Some? ==> Begun(s, op).Over? && Do(s, op) == s
    ensures op.DoCancel? && Refused(s, op).None? ==>
              var h := Begun(s, op);
              h.CancelFound? && HalfOk(s, h) && NextStore(s, h) == Do(s, op) && NextHalf(s, h).Over?
  {
    BegunOk(s, op);
    hide Blank, Sound;
  }

  // ------------------------------------------------------------------- the race

  function Pack(id: string, version: int): Package { Package(id, version, "J", true, "") }

  const A := Pack("a", 1)
  const B := Pack("b", 2)
  const OLD_A := Record(A, Superseded, Some(1), None)

  /** The two packages of one jurisdiction, the newer one in the given state. */
  function Two(b: State, at: int): Store {
    Store(map["a" := OLD_A, "b" := Record(B, b, Some(at), None)], map["J" := "b"])
  }

  ghost predicate Reaches(sys: System, steps: seq<Step>, last: System)
    decreases |steps|
  {
    if steps == [] then sys == last
    else SysInv(sys) && Enabled(sys, steps[0]) && Reaches(Apply(sys, steps[0]), steps[1..], last)
  }

  /** One more step; the invariant goes on unless it restores late. */
  lemma {:induction false} ThenStep(sys: System, steps: seq<Step>, mid: System, step: Step)
    requires Reaches(sys, steps, mid) && SysInv(mid) && Enabled(mid, step)
    ensures Reaches(sys, steps + [step], Apply(mid, step))
    ensures SysInv(Apply(mid, step)) <==> !RestoresLate(mid, step)
    decreases |steps|
  {
    hide SysInv, Enabled, Apply, RestoresLate;
    StepIff(mid, step);
    var all := steps + [step];
    if steps == [] {
      assert all[1..] == [];
    } else {
      assert all[0] == steps[0] && all[1..] == steps[1..] + [step];
      ThenStep(Apply(sys, steps[0]), steps[1..], mid, step);
    }
  }

  lemma NotBlank(id: string)
    requires id != "" && 'A' <= id[0] <= 'z'
    ensures !Blank(id)
  {
    assert !IsSpace(id[0]);
  }

  const ONE := Store(map["a" := Record(A, Published, Some(1), None)], map["J" := "a"])

  lemma ReachOne() returns (steps: seq<Step>)
    ensures Reaches(System(EMPTY, []), steps, System(ONE, [])) && SysInv(System(ONE, []))
  {
    NotBlank("a");
    NotBlank("J");
    hide Blank;
    var preview, publish := Whole(DoPreview(A, "J")), Whole(DoPublish("a", "J", true, 1));
    var s0 := System(EMPTY, []);
    ThenStep(s0, [], s0, preview);
    var s1 := Apply(s0, preview);
    ThenStep(s0, [] + [preview], s1, publish);
    assert Apply(s1, publish) == System(ONE, []);
    steps := [] + [preview] + [publish];
  }

  /** The older package is displaced by the newer one. */
  lemma ReachTwo() returns (steps: seq<Step>)
    ensures Reaches(System(EMPTY, []), steps, System(Two(Published, 2), [])) && SysInv(System(Two(Published, 2), []))
  {
    NotBlank("b");
    NotBlank("J");
    hide Blank;
    var preview, publish := Whole(DoPreview(B, "J")), Whole(DoPublish("b", "J", true, 2));
    var s0 := System(EMPTY, []);
    var p0 := ReachOne();
    hide Reaches;
    ThenStep(s0, p0, System(ONE, []), preview);
    var s1 := Apply(System(ONE, []), preview);
    assert s1.store == Store(ONE.records["b" := Record(B, Preview, None, None)], ONE.active);
    ThenStep(s0, p0 + [preview], s1, publish);
    assert Apply(s1, publish) == System(Two(Published, 2), []);
    steps := p0 + [preview] + [publish];
  }

  const ROLLBACK := DoRollback("a", "J", true, 3)

  /** A rollback looks and supersedes the newer package, all before it takes the lock. */
  lemma ReachLock() returns (steps: seq<Step>)
    ensures var ready := System(Two(Superseded, 2), [RollbackReady("a", "J", 3, OLD_A)]);
            Reaches(System(EMPTY, []), steps, ready) && SysInv(ready)
  {
    var s0, two := System(EMPTY, []), Two(Published, 2);
    var p0 := ReachTwo();
    var found := System(two, [RollbackFound("a", "J", 3, OLD_A)]);
    var picked := System(two, [RollbackPicked("a", "J", 3, OLD_A, "b")]);
    var holds := System(two, [RollbackHolds("a", "J", 3, OLD_A, "b", two.records["b"])]);
    var ready := System(Two(Superseded, 2), [RollbackReady("a", "J", 3, OLD_A)]);
    ThenStep(s0, p0, System(two, []), Begin(ROLLBACK));
    assert Apply(System(two, []), Begin(ROLLBACK)) == found;
    ThenStep(s0, p0 + [Begin(ROLLBACK)], found, Next(0));
    assert Apply(found, Next(0)) == picked;
    hide Reaches;
    ThenStep(s0, p0 + [Begin(ROLLBACK)] + [Next(0)], picked, Next(0));
    assert Apply(picked, Next(0)) == holds;
    ThenStep(s0, p0 + [Begin(ROLLBACK)] + [Next(0)] + [Next(0)], holds, Next(0));
    assert Apply(holds, Next(0)) == ready;
    steps := p0 + [Begin(ROLLBACK)] + [Next(0)] + [Next(0)] + [Next(0)];
  }

  /** The newer package is then published again, and the lock puts the older one beside it:
      a run from nothing that ends with two packages in service in one jurisdiction. */
  lemma RollbackRace() returns (steps: seq<Step>, last: System)
    ensures Reaches(System(EMPTY, []), steps, last)
    ensures InService(last.store, "a", "J") && InService(last.store, "b", "J")
  {
    var s0, publishB := System(EMPTY, []), Whole(DoPublish("b", "J", true, 4));
    var ready := System(Two(Superseded, 2), [RollbackReady("a", "J", 3, OLD_A)]);
    var late := System(Two(Published, 4), [RollbackReady("a", "J", 3, OLD_A)]);
    var p0 := ReachLock();
    hide Reaches;
    ThenStep(s0, p0, ready, publishB);
    assert Apply(ready, publishB) == late;
    ThenStep(s0, p0 + [publishB], late, Next(0));
    steps, last := p0 + [publishB] + [Next(0)], Apply(late, Next(0));
  }
}
