/** Transitions and recordings by several threads, broken up at every call of the two
    repositories: read, replace, read the head, append. Each repository call is one step; the
    checks in between touch nothing shared. */
module SourceInterleaving {
  import opened Wrappers
  import opened Audit
  import opened SourceActivation

  type Hop = map<string, string>

  /** Where a call in flight is: a transition that has read `current`; a recording that is about
      to read the head; or one that has read `head` and is about to append. `moves` tells the
      recording of a transition from that of another part of the system. */
  datatype Half =
    | Found(op: Op, current: Source)
    | Drafted(d: Draft, moves: bool)
    | Headed(d: Draft, moves: bool, head: string)
    | Over

  /** `owed` lists, for each source, the moves made and not yet recorded, in order, and `born`
      the version it was discovered with. */
  datatype System = System(world: World, halves: seq<Half>, owed: map<string, seq<Hop>>, born: map<string, int>)

  const START := System(EMPTY, [], map[], map[])

  datatype Step = Whole(op: Op) | Begin(op: Op) | Next(k: nat)

  predicate Enabled(sys: System, step: Step) {
    match step
    case Whole(op) => op.Discover?
    case Begin(op) => !op.Discover? && Foreign(op)
    case Next(k) => k < |sys.halves| && !sys.halves[k].Over?
  }

  function Owed(sys: System, id: string): seq<Hop> {
    if id in sys.owed then sys.owed[id] else []
  }

  function RemoveFirst(hops: seq<Hop>, hop: Hop): seq<Hop> {
    if hops == [] then []
    else if hops[0] == hop then hops[1..]
    else [hops[0]] + RemoveFirst(hops[1..], hop)
  }

  function Begun(w: World, op: Op): Half
    requires !op.Discover?
  {
    if op.Note? then Drafted(op.draft, false)
    else if Legal(w, op) then Found(op, w.sources[op.id])
    else Over
  }

  /** The version check of the replacement. */
  predicate StillCurrent(w: World, op: Op, current: Source)
    requires op.Transition?
  {
    op.id in w.sources && w.sources[op.id].version == current.version
  }

  /** What the append takes. */
  predicate Appends(w: World, d: Draft, head: string) {
    WellFormed(d) && !HasId(w.events, d.eventId) && head == Head(w.events)
  }

  function Advance(h: Digest, sys: System, k: nat): System
    requires k < |sys.halves| && (sys.halves[k].Found? ==> sys.halves[k].op.Transition?)
  {
    var w := sys.world;
    match sys.halves[k]
    case Found(op, current) =>
      if !StillCurrent(w, op, current) then sys.(halves := sys.halves[k := Over])
      else
        var d := DraftOf(op, current.state);
        System(w.(sources := w.sources[op.id := Moved(current, op.target, op.at)]),
               sys.halves[k := Drafted(d, true)], sys.owed[op.id := Owed(sys, op.id) + [d.attributes]], sys.born)
    case Drafted(d, moves) => sys.(halves := sys.halves[k := Headed(d, moves, Head(w.events))])
    case Headed(d, moves, head) =>
      System(if Appends(w, d, head) then w.(events := w.events + [Event(d, head, h(d, head))]) else w,
             sys.halves[k := Over],
             if moves then sys.owed[d.subjectId := RemoveFirst(Owed(sys, d.subjectId), d.attributes)] else sys.owed,
             sys.born)
    case Over => sys
  }

  function Apply(h: Digest, sys: System, step: Step): System
    requires SysInv(h, sys) && Enabled(sys, step)
  {
    match step
    case Whole(op) => sys.(world := Do(h, sys.world, op), born := Born(sys.born, sys.world, op))
    case Begin(op) => sys.(halves := sys.halves + [Begun(sys.world, op)])
    case Next(k) => Advance(h, sys, k)
  }

  // ------------------------------------------------------------------- invariant

  predicate HalfOk(w: World, half: Half) {
    match half
    case Found(op, current) =>
      && op.Transition? && Allowed(current.state, op.target) && op.id in w.sources && current.id == op.id
      && current.version <= w.sources[op.id].version
      && (current.version == w.sources[op.id].version ==> w.sources[op.id] == current)
    case Drafted(d, moves) => SubjectOk(w, d, moves)
    case Headed(d, moves, _) => SubjectOk(w, d, moves)
    case Over => true
  }

  predicate SubjectOk(w: World, d: Draft, moves: bool) {
    (moves <==> d.action == TRANSITION && d.subjectType == SUBJECT) && (moves ==> d.subjectId in w.sources)
  }

  predicate OwesFor(half: Half, id: string) {
    (half.Drafted? || half.Headed?) && half.moves && half.d.subjectId == id
  }

  /** The moves of one source that the calls in flight have still to record. */
  function Pending(halves: seq<Half>, id: string): multiset<Hop> {
    if halves == [] then multiset{}
    else Pending(halves[..|halves| - 1], id) + Share(halves[|halves| - 1], id)
  }

  function Share(half: Half, id: string): multiset<Hop> {
    if OwesFor(half, id) then multiset{half.d.attributes} else multiset{}
  }

  /** With the moves still to be recorded, the log accounts for the source. */
  ghost predicate AccountedWith(w: World, born: map<string, int>, id: string, owed: seq<Hop>)
    requires id in w.sources && id in born
  {
    && w.sources[id].id == id
    && Path(Trail(w.events, id) + owed, w.sources[id].state)
    && w.sources[id].version == born[id] + |Trail(w.events, id)| + |owed|
  }

  ghost predicate SubjectsKnown(w: World) {
    forall e :: e in w.events && e.draft.action == TRANSITION && e.draft.subjectType == SUBJECT ==> e.draft.subjectId in w.sources
  }

  ghost predicate Fine(sys: System, id: string) {
    id in sys.world.sources && id in sys.born && AccountedWith(sys.world, sys.born, id, Owed(sys, id))
  }

  /** What is owed for a source is what the calls in flight have still to record. */
  ghost predicate Owes(sys: System, id: string) {
    multiset(Owed(sys, id)) == Pending(sys.halves, id)
  }

  ghost predicate SysFaithful(sys: System) {
    && sys.world.sources.Keys == sys.born.Keys && sys.owed.Keys <= sys.born.Keys
    && (forall id :: id in sys.world.sources ==> Fine(sys, id))
    && SubjectsKnown(sys.world)
  }

  ghost predicate HalvesOk(sys: System) {
    && (forall k :: 0 <= k < |sys.halves| ==> HalfOk(sys.world, sys.halves[k]))
    && forall id :: Owes(sys, id)
  }

  ghost predicate SysInv(h: Digest, sys: System) {
    SysFaithful(sys) && HalvesOk(sys) && ChainValid(h, sys.world.events)
  }

  lemma OwesNothing(sys: System, id: string)
    requires Owes(sys, id) && forall k :: 0 <= k < |sys.halves| ==> sys.halves[k].Over?
    ensures Owed(sys, id) == []
  {
    NothingPending(sys.halves, id);
    var owed := Owed(sys, id);
    assert |multiset(owed)| == |owed|;
  }

  /** With nothing in flight this is the account of the sequential calls. */
  lemma QuietIsFaithful(h: Digest, sys: System)
    requires SysInv(h, sys) && forall k :: 0 <= k < |sys.halves| ==> sys.halves[k].Over?
    ensures Faithful(sys.world, sys.born)
  {
    hide Path, Trail, Pending, ChainValid;
    forall id | id in sys.world.sources
      ensures Accounted(sys.world, sys.born, id)
    {
      assert Fine(sys, id) && Owes(sys, id);
      OwesNothing(sys, id);
      assert Trail(sys.world.events, id) + [] == Trail(sys.world.events, id);
    }
  }

  lemma {:induction false} NothingPending(halves: seq<Half>, id: string)
    requires forall k :: 0 <= k < |halves| ==> halves[k].Over?
    ensures Pending(halves, id) == multiset{}
  {
    if halves != [] {
      NothingPending(halves[..|halves| - 1], id);
    }
  }

  lemma PendingMore(halves: seq<Half>, half: Half, id: string)
    ensures Pending(halves + [half], id) == Pending(halves, id) + Share(half, id)
  {
    assert (halves + [half])[..|halves|] == halves;
  }

  lemma {:induction false} PendingUpdate(halves: seq<Half>, k: nat, half: Half, id: string)
    requires k < |halves|
    ensures Share(halves[k], id) <= Pending(halves, id)
    ensures Pending(halves[k := half], id) == Pending(halves, id) - Share(halves[k], id) + Share(half, id)
  {
    hide Share, Pending;
    var n := |halves| - 1;
    assert halves[..n] + [halves[n]] == halves;
    PendingMore(halves[..n], halves[n], id);
    if k == n {
      assert halves[..n] + [half] == halves[k := half];
      PendingMore(halves[..n], half, id);
    } else {
      PendingUpdate(halves[..n], k, half, id);
      assert halves[..n][k := half] + [halves[n]] == halves[k := half];
      PendingMore(halves[..n][k := half], halves[n], id);
      ExchangePlus(Pending(halves[..n], id), Share(halves[k], id), Share(half, id), Share(halves[n], id));
    }
  }

  lemma ExchangePlus(all: multiset<Hop>, out: multiset<Hop>, come: multiset<Hop>, more: multiset<Hop>)
    requires out <= all
    ensures out <= all + more && all - out + come + more == all + more - out + come
  {
  }

  lemma {:induction false} RemoveFirstTakesOne(hops: seq<Hop>, hop: Hop)
    requires hop in hops
    ensures |RemoveFirst(hops, hop)| == |hops| - 1
    ensures multiset(RemoveFirst(hops, hop)) == multiset(hops) - multiset{hop}
  {
    assert hops == [hops[0]] + hops[1..];
    if hops[0] != hop {
      RemoveFirstTakesOne(hops[1..], hop);
    }
  }

  // ----------------------------------------------------------------------- paths

  function HopOf(from: State, to: State): Hop {
    map["from_state" := Name(from), "to_state" := Name(to)]
  }

  lemma NameTells(s: State, t: State)
    requires Name(s) == Name(t)
    ensures s == t
  {
    assert |Name(s)| == |Name(t)| && Name(s)[0] == Name(t)[0] && Name(s)[1] == Name(t)[1];
  }

  lemma HopTells(a: State, b: State, c: State, d: State)
    requires HopOf(a, b) == HopOf(c, d)
    ensures a == c && b == d
  {
    assert HopOf(a, b)["from_state"] == HopOf(c, d)["from_state"] && HopOf(a, b)["to_state"] == HopOf(c, d)["to_state"];
    NameTells(a, c);
    NameTells(b, d);
  }

  /** The hops lead from one state to the other. */
  ghost predicate Leads(from: State, hops: seq<Hop>, to: State)
    decreases |hops|
  {
    if hops == [] then from == to
    else exists next :: Allowed(from, next) && hops[0] == HopOf(from, next) && Leads(next, hops[1..], to)
  }

  lemma {:induction false} LeadsOn(from: State, hops: seq<Hop>, mid: State, to: State)
    requires Leads(from, hops, mid) && Allowed(mid, to)
    ensures Leads(from, hops + [HopOf(mid, to)], to)
    decreases |hops|
  {
    hide Allowed, HopOf;
    var more := hops + [HopOf(mid, to)];
    if hops == [] {
      assert more[1..] == [] && Leads(to, [], to);
    } else {
      var next :| Allowed(from, next) && hops[0] == HopOf(from, next) && Leads(next, hops[1..], mid);
      LeadsOn(next, hops[1..], mid, to);
      assert more[0] == hops[0] && more[1..] == hops[1..] + [HopOf(mid, to)];
    }
  }

  lemma PathBack(hops: seq<Hop>, to: State) returns (from: State)
    requires Path(hops, to) && hops != []
    ensures Allowed(from, to) && hops[|hops| - 1] == HopOf(from, to) && Path(hops[..|hops| - 1], from)
  {
    hide Allowed;
    from :| Allowed(from, to) && hops[|hops| - 1] == HopOf(from, to) && Path(hops[..|hops| - 1], from);
  }

  /** A path through a trail and what follows it is a path and a lead from where it ends. */
  lemma {:induction false} PathSplits(trail: seq<Hop>, hops: seq<Hop>, to: State) returns (mid: State)
    requires Path(trail + hops, to)
    ensures Path(trail, mid) && Leads(mid, hops, to)
    decreases |hops|
  {
    if hops == [] {
      assert trail + hops == trail;
      mid := to;
    } else {
      var all, n := trail + hops, |hops| - 1;
      var from := PathBack(all, to);
      hide Path, Leads, Allowed, HopOf;
      assert all[..|all| - 1] == trail + hops[..n] && all[|all| - 1] == hops[n];
      mid := PathSplits(trail, hops[..n], from);
      LeadsOn(mid, hops[..n], from, to);
      assert hops == hops[..n] + [HopOf(from, to)];
    }
  }

  /** A trail leads to one state. */
  lemma PathTells(trail: seq<Hop>, s: State, t: State)
    requires Path(trail, s) && Path(trail, t)
    ensures s == t
  {
    hide Allowed, Name;
    if trail != [] {
      var a := PathBack(trail, s);
      var b := PathBack(trail, t);
      HopTells(a, s, b, t);
    }
  }

  lemma RetiredLeadsNowhere(hops: seq<Hop>, to: State)
    requires Leads(Retired, hops, to)
    ensures hops == []
  {
  }

  /** Two ways out of a state: one of them retires it. */
  lemma ForkRetires(from: State, a: State, b: State)
    requires Allowed(from, a) && Allowed(from, b) && a != b
    ensures a == Retired || b == Retired
  {
  }

  /** A move recorded before an earlier one leaves no legal path. */
  lemma OutOfOrderIsNoPath(trail: seq<Hop>, owed: seq<Hop>, hop: Hop, to: State)
    requires Path(trail + owed, to) && hop in owed && hop != owed[0]
    ensures !Path(trail + [hop] + RemoveFirst(owed, hop), to)
  {
    hide Allowed, Name, Path;
    var rest := RemoveFirst(owed, hop);
    assert rest == [owed[0]] + RemoveFirst(owed[1..], hop);
    if Path(trail + [hop] + rest, to) {
      assert trail + [hop] + rest == trail + ([hop] + rest);
      var x := PathSplits(trail, owed, to);
      var y := PathSplits(trail, [hop] + rest, to);
      PathTells(trail, x, y);
      assert ([hop] + rest)[1..] == rest;
      var a :| Allowed(x, a) && owed[0] == HopOf(x, a) && Leads(a, owed[1..], to);
      var b :| Allowed(x, b) && hop == HopOf(x, b) && Leads(b, rest, to);
      ForkRetires(x, a, b);
      if a == Retired {
        RetiredLeadsNowhere(owed[1..], to);
      } else {
        RetiredLeadsNowhere(rest, to);
      }
      assert false;
    }
  }

  // ----------------------------------------------------------------------- steps

  /** The append of a move fails, or comes before that of an earlier move of its source. */
  predicate Loses(h: Digest, sys: System, step: Step)
    requires SysInv(h, sys) && Enabled(sys, step)
  {
    step.Next? && sys.halves[step.k].Headed? && sys.halves[step.k].moves &&
    var d, head := sys.halves[step.k].d, sys.halves[step.k].head;
    !Appends(sys.world, d, head) || Owed(sys, d.subjectId) == [] || d.attributes != Owed(sys, d.subjectId)[0]
  }

  /** Where a source changes its version grows, so no call in flight is misled. */
  ghost predicate Succeeds(w: World, t: World) {
    && w.sources.Keys <= t.sources.Keys
    && forall id :: id in w.sources ==> t.sources[id] == w.sources[id] || t.sources[id].version > w.sources[id].version
  }

  lemma HalfStaysOk(w: World, t: World, half: Half)
    requires HalfOk(w, half) && Succeeds(w, t)
    ensures HalfOk(t, half)
  {
  }

  lemma OwesAfter(sys: System, t: System, k: nat, half: Half, id: string)
    requires Owes(sys, id) && k < |sys.halves| && t.halves == sys.halves[k := half]
    requires multiset(Owed(t, id)) == multiset(Owed(sys, id)) - Share(sys.halves[k], id) + Share(half, id)
    ensures Owes(t, id)
  {
    hide Share;
    PendingUpdate(sys.halves, k, half, id);
  }

  /** One call moves on: the calls in flight, and what they owe, stay in order. */
  lemma HalvesAfter(sys: System, t: System, k: nat, half: Half)
    requires HalvesOk(sys) && k < |sys.halves| && t.halves == sys.halves[k := half] && HalfOk(t.world, half)
    requires Succeeds(sys.world, t.world)
    requires forall id :: multiset(Owed(t, id)) == multiset(Owed(sys, id)) - Share(sys.halves[k], id) + Share(half, id)
    ensures HalvesOk(t)
  {
    hide Owes, HalfOk, Share, Succeeds, Owed;
    forall id
      ensures Owes(t, id)
    {
      assert Owes(sys, id);
      OwesAfter(sys, t, k, half, id);
    }
    forall m | 0 <= m < |t.halves|
      ensures HalfOk(t.world, t.halves[m])
    {
      assert m != k ==> HalfOk(sys.world, sys.halves[m]);
      if m != k {
        HalfStaysOk(sys.world, t.world, sys.halves[m]);
      }
    }
  }

  /** A call moves on with its share unchanged, and nothing else happens. */
  lemma HalfMovesOn(h: Digest, sys: System, k: nat, half: Half)
    requires SysInv(h, sys) && k < |sys.halves| && HalfOk(sys.world, half)
    requires forall id :: Share(half, id) == Share(sys.halves[k], id)
    ensures SysInv(h, sys.(halves := sys.halves[k := half]))
  {
    var t := sys.(halves := sys.halves[k := half]);
    hide Fine, ChainValid, Share, HalfOk, Owes;
    SameShare(sys, t, k, half);
    HalvesAfter(sys, t, k, half);
    FineElsewhere(sys, t);
    hide HalvesOk;
  }

  lemma SameShare(sys: System, t: System, k: nat, half: Half)
    requires HalvesOk(sys) && k < |sys.halves| && t.owed == sys.owed
    requires forall id :: Share(half, id) == Share(sys.halves[k], id)
    ensures Succeeds(t.world, t.world)
    ensures forall id :: multiset(Owed(t, id)) == multiset(Owed(sys, id)) - Share(sys.halves[k], id) + Share(half, id)
  {
    ShareIsOwed(sys, k);
    hide Share;
  }

  /** What a call has still to record is among what is owed. */
  lemma ShareIsOwed(sys: System, k: nat)
    requires HalvesOk(sys) && k < |sys.halves|
    ensures forall id :: Share(sys.halves[k], id) <= multiset(Owed(sys, id))
  {
    hide HalfOk, Share, Owed;
    forall id
      ensures Share(sys.halves[k], id) <= multiset(Owed(sys, id))
    {
      assert Owes(sys, id);
      PendingUpdate(sys.halves, k, Over, id);
    }
  }

  lemma FineElsewhere(sys: System, t: System)
    requires t.world == sys.world && t.born == sys.born && t.owed == sys.owed
    requires forall id :: id in sys.world.sources ==> Fine(sys, id)
    ensures forall id :: id in t.world.sources ==> Fine(t, id)
  {
    forall id | id in t.world.sources
      ensures Fine(t, id)
    {
      assert Fine(sys, id);
      hide AccountedWith;
    }
  }

  lemma BegunOk(sys: System, op: Op)
    requires SysFaithful(sys) && !op.Discover? && Foreign(op)
    ensures HalfOk(sys.world, Begun(sys.world, op)) && forall id :: Share(Begun(sys.world, op), id) == multiset{}
  {
    if op.Transition? && Legal(sys.world, op) {
      assert Fine(sys, op.id);
    }
  }

  lemma BeginKeepsInv(h: Digest, sys: System, op: Op)
    requires SysInv(h, sys) && Enabled(sys, Begin(op))
    ensures SysInv(h, Apply(h, sys, Begin(op)))
  {
    var half, t := Begun(sys.world, op), Apply(h, sys, Begin(op));
    BegunOk(sys, op);
    FineElsewhere(sys, t);
    hide HalfOk, Fine, ChainValid, Share, Begun, Foreign;
    forall id
      ensures Owes(t, id)
    {
      assert Owes(sys, id);
      PendingMore(sys.halves, half, id);
    }
  }

  lemma NewSourceIsFine(sys: System, s: Source, t: System)
    requires SysFaithful(sys) && s.state.Discovered? && s.id !in sys.world.sources
    requires t == sys.(world := sys.world.(sources := sys.world.sources[s.id := s]), born := sys.born[s.id := s.version])
    ensures Fine(t, s.id)
  {
    TrailOfStrangers(sys.world.events, s.id);
    assert Owed(t, s.id) == [];
    DiscoveredPath();
    hide Path, Trail;
    assert Trail(t.world.events, s.id) + [] == [];
  }

  lemma OtherSourceStaysFine(sys: System, s: Source, t: System, id: string)
    requires Fine(sys, id) && id != s.id
    requires t == sys.(world := sys.world.(sources := sys.world.sources[s.id := s]), born := sys.born[s.id := s.version])
    ensures Fine(t, id)
  {
    hide Path, Trail;
  }

  lemma DiscoverHalves(sys: System, s: Source, t: System)
    requires HalvesOk(sys) && s.id !in sys.world.sources
    requires t == sys.(world := sys.world.(sources := sys.world.sources[s.id := s]), born := sys.born[s.id := s.version])
    ensures HalvesOk(t)
  {
    assert Succeeds(sys.world, t.world);
    forall k | 0 <= k < |t.halves|
      ensures HalfOk(t.world, t.halves[k])
    {
      assert HalfOk(sys.world, sys.halves[k]);
      HalfStaysOk(sys.world, t.world, sys.halves[k]);
    }
    hide HalfOk, Pending;
    forall id
      ensures Owes(t, id)
    {
      assert Owes(sys, id);
    }
  }

  lemma DiscoverFaithful(sys: System, s: Source, t: System)
    requires SysFaithful(sys) && s.state.Discovered? && s.id !in sys.world.sources
    requires t == sys.(world := sys.world.(sources := sys.world.sources[s.id := s]), born := sys.born[s.id := s.version])
    ensures SysFaithful(t)
  {
    NewSourceIsFine(sys, s, t);
    forall id | id in sys.world.sources
      ensures Fine(t, id)
    {
      assert Fine(sys, id);
      OtherSourceStaysFine(sys, s, t, id);
    }
    hide Fine;
  }

  lemma DiscoverKeepsInv(h: Digest, sys: System, op: Op)
    requires SysInv(h, sys) && op.Discover?
    ensures SysInv(h, Apply(h, sys, Whole(op)))
  {
    var t, s := Apply(h, sys, Whole(op)), op.source;
    hide SysFaithful, HalvesOk, ChainValid;
    if s.state.Discovered? && s.id !in sys.world.sources {
      DiscoverFaithful(sys, s, t);
      DiscoverHalves(sys, s, t);
    } else {
      assert t == sys;
    }
  }

  lemma ReplaceOwes(h: Digest, sys: System, k: nat)
    requires k < |sys.halves| && sys.halves[k].Found? && HalfOk(sys.world, sys.halves[k])
    requires StillCurrent(sys.world, sys.halves[k].op, sys.halves[k].current)
    ensures var t, op, current := Advance(h, sys, k), sys.halves[k].op, sys.halves[k].current;
            var half := Drafted(DraftOf(op, current.state), true);
            && t.halves == sys.halves[k := half] && HalfOk(t.world, half) && Succeeds(sys.world, t.world)
            && forall id :: multiset(Owed(t, id)) == multiset(Owed(sys, id)) - Share(sys.halves[k], id) + Share(half, id)
  {
  }

  /** The replacement: the source moves, and the move is owed. */
  lemma ReplaceKeepsInv(h: Digest, sys: System, k: nat)
    requires SysInv(h, sys) && k < |sys.halves| && sys.halves[k].Found? && HalfOk(sys.world, sys.halves[k])
    requires StillCurrent(sys.world, sys.halves[k].op, sys.halves[k].current)
    ensures SysInv(h, Advance(h, sys, k))
  {
    var op, current, t := sys.halves[k].op, sys.halves[k].current, Advance(h, sys, k);
    ReplaceOwes(h, sys, k);
    hide HalvesOk, ChainValid;
    HalvesAfter(sys, t, k, Drafted(DraftOf(op, current.state), true));
    ReplaceFaithful(h, sys, k);
    hide SysFaithful;
  }

  lemma ReplaceKeepsKeys(h: Digest, sys: System, k: nat)
    requires SysFaithful(sys) && k < |sys.halves| && sys.halves[k].Found? && HalfOk(sys.world, sys.halves[k])
    requires StillCurrent(sys.world, sys.halves[k].op, sys.halves[k].current)
    ensures var t := Advance(h, sys, k);
            && t.world.sources.Keys == sys.world.sources.Keys && t.born == sys.born && t.owed.Keys <= t.born.Keys
            && SubjectsKnown(t.world)
  {
    hide Fine, DraftOf;
  }

  lemma ReplaceFaithful(h: Digest, sys: System, k: nat)
    requires SysFaithful(sys) && k < |sys.halves| && sys.halves[k].Found? && HalfOk(sys.world, sys.halves[k])
    requires StillCurrent(sys.world, sys.halves[k].op, sys.halves[k].current)
    ensures SysFaithful(Advance(h, sys, k))
  {
    var t := Advance(h, sys, k);
    ReplaceKeepsKeys(h, sys, k);
    hide Fine, HalfOk, StillCurrent, Advance, SubjectsKnown;
    forall id | id in t.world.sources
      ensures Fine(t, id)
    {
      assert id in sys.world.sources;
      ReplacedIsFine(h, sys, k, id);
    }
  }

  lemma ReplacedIsFine(h: Digest, sys: System, k: nat, id: string)
    requires k < |sys.halves| && sys.halves[k].Found? && HalfOk(sys.world, sys.halves[k]) && Fine(sys, id)
    requires StillCurrent(sys.world, sys.halves[k].op, sys.halves[k].current)
    ensures Fine(Advance(h, sys, k), id)
  {
    hide Path, Trail, Allowed;
    var op, current, t, w := sys.halves[k].op, sys.halves[k].current, Advance(h, sys, k), sys.world;
    if id == op.id {
      var trail := Trail(w.events, id) + Owed(sys, id);
      PathExtends(trail, current.state, op.target);
      assert trail + [DraftOf(op, current.state).attributes] == Trail(w.events, id) + Owed(t, id);
    }
  }

  /** An append that is not of a move of this source leaves its account as it was. */
  lemma AppendKeepsOthers(h: Digest, sys: System, k: nat, id: string)
    requires k < |sys.halves| && sys.halves[k].Headed? && HalfOk(sys.world, sys.halves[k]) && Fine(sys, id)
    requires sys.halves[k].moves ==> id != sys.halves[k].d.subjectId
    ensures Fine(Advance(h, sys, k), id)
  {
    hide Path, Trail, Appends;
    var d, head, w := sys.halves[k].d, sys.halves[k].head, sys.world;
    TrailExtends(w.events, Event(d, head, h(d, head)), id);
    assert Trail(w.events, id) + [] == Trail(w.events, id);
  }

  lemma AppendKeepsChain(h: Digest, sys: System, k: nat)
    requires ChainValid(h, sys.world.events) && k < |sys.halves| && sys.halves[k].Headed?
    ensures ChainValid(h, Advance(h, sys, k).world.events)
  {
    hide ChainValid;
    var d, head := sys.halves[k].d, sys.halves[k].head;
    ChainExtends(h, sys.world.events, Event(d, head, h(d, head)));
  }

  lemma AppendKeepsSubjects(h: Digest, sys: System, k: nat)
    requires SubjectsKnown(sys.world) && k < |sys.halves| && sys.halves[k].Headed? && HalfOk(sys.world, sys.halves[k])
    ensures SubjectsKnown(Advance(h, sys, k).world) && Succeeds(sys.world, Advance(h, sys, k).world)
  {
    hide Appends;
  }

  lemma NoteFaithful(h: Digest, sys: System, k: nat)
    requires SysFaithful(sys) && k < |sys.halves| && sys.halves[k].Headed? && HalfOk(sys.world, sys.halves[k]) && !sys.halves[k].moves
    ensures SysFaithful(Advance(h, sys, k))
  {
    var t := Advance(h, sys, k);
    AppendKeepsSubjects(h, sys, k);
    assert t.world.sources == sys.world.sources && t.born == sys.born && t.owed == sys.owed;
    hide HalfOk, Fine, SubjectsKnown, Succeeds, Appends, Advance;
    forall id | id in t.world.sources
      ensures Fine(t, id)
    {
      assert Fine(sys, id);
      AppendKeepsOthers(h, sys, k, id);
    }
  }

  lemma NoteHalves(h: Digest, sys: System, k: nat)
    requires HalvesOk(sys) && SubjectsKnown(sys.world) && k < |sys.halves| && sys.halves[k].Headed? && !sys.halves[k].moves
    ensures HalvesOk(Advance(h, sys, k))
  {
    var t := Advance(h, sys, k);
    assert HalfOk(sys.world, sys.halves[k]);
    AppendKeepsSubjects(h, sys, k);
    assert HalfOk(t.world, Over);
    assert t.owed == sys.owed && t.halves == sys.halves[k := Over];
    assert forall id :: Share(sys.halves[k], id) == Share(Over, id);
    hide HalfOk, SubjectsKnown, Succeeds, Appends, Advance;
    SameShare(sys, t, k, Over);
    HalvesAfter(sys, t, k, Over);
  }

  /** The append of another part of the system touches no source's account. */
  lemma NoteKeepsInv(h: Digest, sys: System, k: nat)
    requires SysInv(h, sys) && k < |sys.halves| && sys.halves[k].Headed? && !sys.halves[k].moves
    ensures SysInv(h, Advance(h, sys, k))
  {
    assert HalfOk(sys.world, sys.halves[k]);
    hide HalfOk, Fine, Owes, Advance, Appends, ChainValid;
    AppendKeepsChain(h, sys, k);
    NoteFaithful(h, sys, k);
    NoteHalves(h, sys, k);
    hide HalvesOk;
  }

  /** The append of a move takes it off what is owed for its source. */
  lemma AppendPays(h: Digest, sys: System, k: nat)
    requires HalvesOk(sys) && SubjectsKnown(sys.world) && k < |sys.halves| && sys.halves[k].Headed? && sys.halves[k].moves
    ensures var d, t := sys.halves[k].d, Advance(h, sys, k);
            && d.attributes in Owed(sys, d.subjectId) && d.subjectId in sys.world.sources
            && d.action == TRANSITION && d.subjectType == SUBJECT
            && HalvesOk(t)
            && Owed(t, d.subjectId) == RemoveFirst(Owed(sys, d.subjectId), d.attributes)
            && |Owed(t, d.subjectId)| == |Owed(sys, d.subjectId)| - 1
  {
    var d, t := sys.halves[k].d, Advance(h, sys, k);
    assert HalfOk(sys.world, sys.halves[k]) && HalfOk(t.world, Over);
    AppendKeepsSubjects(h, sys, k);
    ShareIsOwed(sys, k);
    var owed := Owed(sys, d.subjectId);
    assert Share(sys.halves[k], d.subjectId) == multiset{d.attributes};
    assert d.attributes in multiset(owed);
    RemoveFirstTakesOne(owed, d.attributes);
    hide HalfOk, SubjectsKnown, Succeeds, Appends, RemoveFirst;
    HalvesAfter(sys, t, k, Over);
  }

  /** The source's own account after the append. */
  lemma AppendOwnIff(h: Digest, sys: System, k: nat)
    requires SysInv(h, sys) && k < |sys.halves| && sys.halves[k].Headed? && sys.halves[k].moves
    ensures Fine(Advance(h, sys, k), sys.halves[k].d.subjectId) <==> !Loses(h, sys, Next(k))
  {
    AppendPays(h, sys, k);
    assert Fine(sys, sys.halves[k].d.subjectId);
    hide SysInv;
    var d, head, t, w := sys.halves[k].d, sys.halves[k].head, Advance(h, sys, k), sys.world;
    var id, owed := d.subjectId, Owed(sys, d.subjectId);
    hide Path, Trail, Appends;
    if Appends(w, d, head) {
      TrailExtends(w.events, Event(d, head, h(d, head)), id);
      InOrderIff(Trail(w.events, id), owed, d.attributes, w.sources[id].state);
    }
  }

  lemma InOrderIff(trail: seq<Hop>, owed: seq<Hop>, hop: Hop, to: State)
    requires Path(trail + owed, to) && hop in owed
    ensures Path(trail + [hop] + RemoveFirst(owed, hop), to) <==> hop == owed[0]
  {
    hide Path;
    if hop == owed[0] {
      assert trail + [hop] + owed[1..] == trail + owed;
    } else {
      OutOfOrderIsNoPath(trail, owed, hop, to);
    }
  }

  lemma AppendIff(h: Digest, sys: System, k: nat)
    requires SysInv(h, sys) && k < |sys.halves| && sys.halves[k].Headed? && sys.halves[k].moves
    ensures HalvesOk(Advance(h, sys, k)) && ChainValid(h, Advance(h, sys, k).world.events)
    ensures SysFaithful(Advance(h, sys, k)) <==> !Loses(h, sys, Next(k))
  {
    var t, w, id := Advance(h, sys, k), sys.world, sys.halves[k].d.subjectId;
    assert HalfOk(sys.world, sys.halves[k]);
    AppendPays(h, sys, k);
    AppendOwnIff(h, sys, k);
    AppendKeepsChain(h, sys, k);
    AppendKeepsSubjects(h, sys, k);
    forall other | other in w.sources && other != id
      ensures Fine(t, other)
    {
      assert Fine(sys, other);
      AppendKeepsOthers(h, sys, k, other);
    }
    hide HalvesOk, ChainValid, Fine, Loses, SubjectsKnown, Succeeds, HalfOk, Appends;
  }

  /** The replacement that comes too late. */
  lemma LateReplaceKeepsInv(h: Digest, sys: System, k: nat)
    requires SysInv(h, sys) && k < |sys.halves| && sys.halves[k].Found? && HalfOk(sys.world, sys.halves[k])
    requires !StillCurrent(sys.world, sys.halves[k].op, sys.halves[k].current)
    ensures SysInv(h, Advance(h, sys, k))
  {
    hide SysInv;
    HalfMovesOn(h, sys, k, Over);
  }

  lemma HeadKeepsInv(h: Digest, sys: System, k: nat)
    requires SysInv(h, sys) && k < |sys.halves| && sys.halves[k].Drafted? && HalfOk(sys.world, sys.halves[k])
    ensures SysInv(h, Advance(h, sys, k))
  {
    hide SysInv, SubjectOk;
    var d, moves := sys.halves[k].d, sys.halves[k].moves;
    HalfMovesOn(h, sys, k, Headed(d, moves, Head(sys.world.events)));
  }

  lemma HalfIsOk(sys: System, k: nat)
    requires HalvesOk(sys) && k < |sys.halves|
    ensures HalfOk(sys.world, sys.halves[k])
  {
  }

  /** Of all the steps of all the calls, those break the account that lose a move: its event
      cannot be appended, because it is not well formed, its identifier is used or the head has
      moved since it was read; or it is appended before that of an earlier move. The calls in
      flight and the chain stay in order either way. */
  lemma StepIff(h: Digest, sys: System, step: Step)
    requires SysInv(h, sys) && Enabled(sys, step)
    ensures HalvesOk(Apply(h, sys, step)) && ChainValid(h, Apply(h, sys, step).world.events)
    ensures SysFaithful(Apply(h, sys, step)) <==> !Loses(h, sys, step)
  {
    hide ChainValid, SysFaithful, HalvesOk;
    match step
    case Whole(op) => DiscoverKeepsInv(h, sys, op);
    case Begin(op) => BeginKeepsInv(h, sys, op);
    case Next(k) =>
      HalfIsOk(sys, k);
      hide Advance, Appends, HalfOk, StillCurrent;
      match sys.halves[k] {
        case Found(op, current) =>
          if StillCurrent(sys.world, op, current) {
            ReplaceKeepsInv(h, sys, k);
          } else {
            LateReplaceKeepsInv(h, sys, k);
          }
        case Drafted(_, _) => HeadKeepsInv(h, sys, k);
        case Headed(_, moves, _) =>
          if moves {
            AppendIff(h, sys, k);
          } else {
            NoteKeepsInv(h, sys, k);
          }
      }
  }

  /** One call's next three steps with nothing in between. */
  function Onward(h: Digest, sys: System, k: nat, steps: nat): System
    requires k < |sys.halves| && (sys.halves[k].Found? ==> sys.halves[k].op.Transition?)
    decreases steps
  {
    if steps == 0 then sys else Onward(h, Advance(h, sys, k), k, steps - 1)
  }

  /** A call that nothing interrupts is the call taken whole. */
  lemma InOneGo(h: Digest, sys: System, op: Op)
    requires SysInv(h, sys) && Enabled(sys, Begin(op))
    ensures Begun(sys.world, op).Found? ==> op.Transition?
    ensures var t := Onward(h, Apply(h, sys, Begin(op)), |sys.halves|, 3);
            t.world == Do(h, sys.world, op) && t.halves == sys.halves + [Over]
  {
    hide SysInv, HasId, WellFormed, Foreign;
    var n, t := |sys.halves|, Apply(h, sys, Begin(op));
    var t1 := Advance(h, t, n);
    var t2 := Advance(h, t1, n);
    var t3 := Advance(h, t2, n);
    assert Onward(h, t, n, 3) == Onward(h, t1, n, 2) == Onward(h, t2, n, 1) == Onward(h, t3, n, 0);
    assert t.halves[n := Over] == sys.halves + [Over];
  }

  function AfterNote(h: Digest, sys: System, note: Op): System
    requires SysInv(h, sys) && note.Note? && Foreign(note)
  {
    Onward(h, Apply(h, sys, Begin(note)), |sys.halves|, 2)
  }

  /** A call of another part of the system between the read of the head and the append: the
      move is lost, whoever makes it and whatever the log holds. */
  lemma OvertakenLoses(h: Digest, sys: System, k: nat, note: Op)
    requires SysInv(h, sys) && k < |sys.halves| && sys.halves[k].Headed? && sys.halves[k].moves
    requires note.Note? && Foreign(note) && Appends(sys.world, note.draft, Head(sys.world.events))
    requires sys.halves[k].head == Head(sys.world.events) != h(note.draft, Head(sys.world.events))
    ensures var t := AfterNote(h, sys, note);
            SysInv(h, t) && Enabled(t, Next(k)) && Loses(h, t, Next(k)) && !SysInv(h, Apply(h, t, Next(k)))
  {
    hide SysFaithful, HalvesOk, ChainValid, HalfOk, Foreign, HasId, WellFormed;
    var n, t := |sys.halves|, Apply(h, sys, Begin(note));
    BeginKeepsInv(h, sys, note);
    var t1 := Advance(h, t, n);
    NextKeepsInv(h, t, n);
    var t2 := Advance(h, t1, n);
    NextKeepsInv(h, t1, n);
    assert Onward(h, t, n, 2) == Onward(h, t1, n, 1) == Onward(h, t2, n, 0);
    assert t2.halves[k] == sys.halves[k];
    StepIff(h, t2, Next(k));
  }

  lemma NextKeepsInv(h: Digest, sys: System, k: nat)
    requires SysInv(h, sys) && Enabled(sys, Next(k)) && !Loses(h, sys, Next(k))
    ensures (sys.halves[k].Found? ==> sys.halves[k].op.Transition?) && SysInv(h, Advance(h, sys, k))
  {
    hide Loses, Advance;
    assert HalfOk(sys.world, sys.halves[k]);
    hide SysFaithful, HalvesOk, ChainValid;
    StepIff(h, sys, Next(k));
  }

  // ------------------------------------------------------------------------ runs

  lemma StartIsSound(h: Digest)
    ensures SysInv(h, START)
  {
  }

  ghost predicate NeverLoses(h: Digest, sys: System, steps: seq<Step>)
    requires SysInv(h, sys)
    decreases |steps|
  {
    steps != [] ==>
      && Enabled(sys, steps[0]) && !Loses(h, sys, steps[0])
      && (StepIff(h, sys, steps[0]); NeverLoses(h, Apply(h, sys, steps[0]), steps[1..]))
  }

  /** `states` are the states the run goes through. */
  ghost predicate Passes(h: Digest, states: seq<System>, steps: seq<Step>) {
    && |states| == |steps| + 1
    && forall k :: 0 <= k < |steps| && SysInv(h, states[k]) ==>
                     Enabled(states[k], steps[k]) && states[k + 1] == Apply(h, states[k], steps[k])
  }

  /** Over any interleaving, the log and the moves still to be recorded account for every
      source at every moment if and only if no move is lost. */
  lemma {:induction false} AccountedThroughoutIff(h: Digest, states: seq<System>, steps: seq<Step>)
    requires Passes(h, states, steps) && SysInv(h, states[0])
    ensures (forall k :: 0 <= k < |states| ==> SysInv(h, states[k])) <==> NeverLoses(h, states[0], steps)
    decreases |steps|
  {
    hide SysFaithful, HalvesOk, ChainValid, Enabled, Apply, Loses;
    if steps != [] {
      StepIff(h, states[0], steps[0]);
      if !Loses(h, states[0], steps[0]) {
        assert Passes(h, states[1..], steps[1..]) by {
          assert forall k :: 0 <= k < |steps[1..]| ==> states[1..][k] == states[k + 1] && steps[1..][k] == steps[k + 1];
        }
        AccountedThroughoutIff(h, states[1..], steps[1..]);
        assert forall k :: 0 < k < |states| ==> states[k] == states[1..][k - 1];
        assert forall k :: 0 <= k < |states[1..]| ==> states[1..][k] == states[k + 1];
      } else {
        assert !SysInv(h, states[1]);
      }
    }
  }
}
