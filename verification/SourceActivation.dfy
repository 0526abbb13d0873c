/** The activation lifecycle of government sources, and the audit trail it leaves. */
module SourceActivation {
  import opened Wrappers
  import opened Audit

  datatype State = Discovered | AccessRequested | SampleAcquired | Validated | Authorized | Operational | Suspended | Retired

  datatype Source = Source(id: string, owner: string, domain: string, state: State, version: int, updatedAt: Instant)

  datatype World = World(sources: map<string, Source>, events: seq<Event>)

  const EMPTY := World(map[], [])

  datatype Failure = NotFound | Illegal | VersionConflict | DuplicateSource | NotDiscovered | NotOperational | AuditFailed(refusal: Audit.Refusal)

  predicate Allowed(from: State, to: State) {
    match from
    case Discovered => to.AccessRequested?
    case AccessRequested => to.SampleAcquired?
    case SampleAcquired => to.Validated?
    case Validated => to.Authorized?
    case Authorized => to.Operational?
    case Operational => to.Suspended? || to.Retired?
    case Suspended => to.Operational? || to.Retired?
    case Retired => false
  }

  function Name(s: State): string {
    match s
    case Discovered => "DISCOVERED"
    case AccessRequested => "ACCESS_REQUESTED"
    case SampleAcquired => "SAMPLE_ACQUIRED"
    case Validated => "VALIDATED"
    case Authorized => "AUTHORIZED"
    case Operational => "OPERATIONAL"
    case Suspended => "SUSPENDED"
    case Retired => "RETIRED"
  }

  const TRANSITION := "SOURCE_STATE_TRANSITION"
  const SUBJECT := "SourceRecord"

  // ------------------------------------------------------------------ operations

  datatype Op =
    | Discover(source: Source)
    | Transition(id: string, target: State, actorId: string, reason: string, at: Instant, eventId: string)
    | Note(draft: Draft)

  function Moved(s: Source, target: State, at: Instant): Source {
    s.(state := target, version := s.version + 1, updatedAt := at)
  }

  function DraftOf(op: Op, from: State): Draft
    requires op.Transition?
  {
    Draft(op.eventId, op.at, op.actorId, TRANSITION, SUBJECT, op.id, op.reason,
          map["from_state" := Name(from), "to_state" := Name(op.target)])
  }

  /** A transition between states that the table links, of a source that exists. */
  predicate Legal(w: World, op: Op) {
    op.Transition? && op.id in w.sources && Allowed(w.sources[op.id].state, op.target)
  }

  /** The state after a call: a legal transition moves the source whether or not its event can
      then be recorded. */
  function Do(h: Digest, w: World, op: Op): World {
    match op
    case Discover(s) => if s.state.Discovered? && s.id !in w.sources then w.(sources := w.sources[s.id := s]) else w
    case Transition(id, target, _, _, at, _) =>
      if !Legal(w, op) then w
      else World(w.sources[id := Moved(w.sources[id], target, at)], Recorded(h, w.events, DraftOf(op, w.sources[id].state)))
    case Note(d) => w.(events := Recorded(h, w.events, d))
  }

  /** What a transition answers. */
  function Answer(w: World, op: Op): Result<Source, Failure>
    requires op.Transition?
  {
    if op.id !in w.sources then Err(NotFound)
    else if !Legal(w, op) then Err(Illegal)
    else match Audit.Refused(w.events, DraftOf(op, w.sources[op.id].state))
         case Some(refusal) => Err(AuditFailed(refusal))
         case None => Ok(Moved(w.sources[op.id], op.target, op.at))
  }

  class DeterministicSourceRepository {
    var sources: map<string, Source>

    constructor ()
      ensures sources == map[]
    {
      sources := map[];
    }

    method Add(source: Source) returns (failure: Option<Failure>)
      modifies this
      ensures failure == if source.id in old(sources) then Some(DuplicateSource) else None
      ensures sources == if failure.None? then old(sources)[source.id := source] else old(sources)
    {
      if source.id in sources {
        return Some(DuplicateSource);
      }
      sources := sources[source.id := source];
      failure := None;
    }

    /** Optimistic replacement: it goes through exactly for the version it was based on. */
    method Replace(source: Source, expectedVersion: int) returns (failure: Option<Failure>)
      modifies this
      ensures failure.None? <==> source.id in old(sources) && old(sources)[source.id].version == expectedVersion
      ensures failure == Some(NotFound) <==> source.id !in old(sources)
      ensures sources == if failure.None? then old(sources)[source.id := source] else old(sources)
    {
      if source.id !in sources {
        return Some(NotFound);
      }
      if sources[source.id].version != expectedVersion {
        return Some(VersionConflict);
      }
      sources := sources[source.id := source];
      failure := None;
    }
  }

  class SourceActivationService {
    const repository: DeterministicSourceRepository
    const audit: AuditService

    constructor (repository: DeterministicSourceRepository, audit: AuditService)
      ensures this.repository == repository && this.audit == audit
    {
      this.repository, this.audit := repository, audit;
    }

    ghost function View(): World
      reads repository, audit.repository
    {
      World(repository.sources, audit.repository.events)
    }

    method DiscoverSource(source: Source) returns (r: Result<Source, Failure>)
      modifies repository
      ensures View() == Do(audit.repository.hash, old(View()), Discover(source))
      ensures r == if !source.state.Discovered? then Err(NotDiscovered)
                   else if source.id in old(repository.sources) then Err(DuplicateSource) else Ok(source)
    {
      if !source.state.Discovered? {
        return Err(NotDiscovered);
      }
      var failure := repository.Add(source);
      if failure.Some? {
        return Err(failure.value);
      }
      r := Ok(source);
    }

    method MoveSource(id: string, target: State, actorId: string, reason: string, at: Instant, eventId: string)
      returns (r: Result<Source, Failure>)
      requires audit.repository.Valid() && forall s :: s in repository.sources ==> repository.sources[s].id == s
      modifies repository, audit.repository`events
      ensures audit.repository.Valid()
      ensures var op := Transition(id, target, actorId, reason, at, eventId);
              View() == Do(audit.repository.hash, old(View()), op) && r == Answer(old(View()), op)
    {
      if id !in repository.sources {
        return Err(NotFound);
      }
      var current := repository.sources[id];
      if !Allowed(current.state, target) {
        return Err(Illegal);
      }
      var updated := current.(state := target, version := current.version + 1, updatedAt := at);
      var failure := repository.Replace(updated, current.version);
      // Nothing comes between the read and the replacement, so the version still matches.
      assert failure.None?;
      var event := audit.Record(Draft(eventId, at, actorId, TRANSITION, SUBJECT, id, reason,
                                      map["from_state" := Name(current.state), "to_state" := Name(target)]));
      if event.Err? {
        return Err(AuditFailed(event.error));
      }
      r := Ok(updated);
    }

    method RequireOperational(id: string) returns (r: Result<Source, Failure>)
      ensures r == if id !in repository.sources then Err(NotFound)
                   else if !repository.sources[id].state.Operational? then Err(NotOperational)
                   else Ok(repository.sources[id])
      ensures r.Ok? ==> forall born :: Faithful(View(), born) ==> Shows(Trail(View().events, id), |ROUTE|)
    {
      if id !in repository.sources {
        return Err(NotFound);
      }
      var source := repository.sources[id];
      if !source.state.Operational? {
        return Err(NotOperational);
      }
      forall born | Faithful(View(), born)
        ensures Shows(Trail(View().events, id), |ROUTE|)
      {
        assert Accounted(View(), born, id);
        TrailShowsRoute(Trail(View().events, id), source.state);
      }
      r := Ok(source);
    }
  }

  // ------------------------------------------------------------------------ trail

  predicate IsTransitionOf(e: Event, id: string) {
    e.draft.action == TRANSITION && e.draft.subjectType == SUBJECT && e.draft.subjectId == id
  }

  /** The transitions of one source in the log, as pairs of state names. */
  function Trail(events: seq<Event>, id: string): seq<map<string, string>> {
    if events == [] then []
    else
      var e := events[|events| - 1];
      Trail(events[..|events| - 1], id) + if IsTransitionOf(e, id) then [e.draft.attributes] else []
  }

  /** The trail is a path of allowed transitions from DISCOVERED to the state. */
  ghost predicate Path(trail: seq<map<string, string>>, state: State)
    decreases |trail|
  {
    if trail == [] then state.Discovered?
    else exists from :: Allowed(from, state) && trail[|trail| - 1] == map["from_state" := Name(from), "to_state" := Name(state)]
                        && Path(trail[..|trail| - 1], from)
  }

  /** The log accounts for the source: how it came to its state, and how often it moved since
      it was discovered with version `born`. */
  ghost predicate Accounted(w: World, born: map<string, int>, id: string)
    requires id in w.sources && id in born
  {
    && w.sources[id].id == id
    && Path(Trail(w.events, id), w.sources[id].state)
    && w.sources[id].version == born[id] + |Trail(w.events, id)|
  }

  ghost predicate Faithful(w: World, born: map<string, int>) {
    && w.sources.Keys == born.Keys
    && (forall id :: id in w.sources ==> Accounted(w, born, id))
    && forall e :: e in w.events && e.draft.action == TRANSITION && e.draft.subjectType == SUBJECT ==> e.draft.subjectId in w.sources
  }

  function Born(born: map<string, int>, w: World, op: Op): map<string, int> {
    if op.Discover? && op.source.state.Discovered? && op.source.id !in w.sources then born[op.source.id := op.source.version] else born
  }

  /** A note made by another part of the system: not a source transition. */
  predicate Foreign(op: Op) {
    op.Note? ==> op.draft.subjectType != SUBJECT || op.draft.action != TRANSITION
  }

  /** A legal transition whose event the log will not take: its identifier has been used, or
      one of its fields is out of range. */
  predicate Unrecordable(w: World, op: Op) {
    && Legal(w, op)
    && (|| HasId(w.events, op.eventId)
        || !Bounded(op.eventId, 200) || !Bounded(op.actorId, 200) || !Bounded(op.id, 200) || !Bounded(op.reason, 4000)
        || op.at.offset != Some(0))
  }

  lemma RefusedIff(w: World, op: Op)
    requires Legal(w, op)
    ensures Audit.Refused(w.events, DraftOf(op, w.sources[op.id].state)).Some? <==> Unrecordable(w, op)
  {
  }

  lemma {:induction false} TrailOfStrangers(events: seq<Event>, id: string)
    requires forall e :: e in events ==> !IsTransitionOf(e, id)
    ensures Trail(events, id) == []
  {
    if events != [] {
      TrailOfStrangers(events[..|events| - 1], id);
    }
  }

  lemma TrailExtends(events: seq<Event>, e: Event, id: string)
    ensures Trail(events + [e], id) == Trail(events, id) + if IsTransitionOf(e, id) then [e.draft.attributes] else []
  {
  }

  lemma PathExtends(trail: seq<map<string, string>>, from: State, to: State)
    requires Path(trail, from) && Allowed(from, to)
    ensures Path(trail + [map["from_state" := Name(from), "to_state" := Name(to)]], to)
  {
  }

  lemma TransitionAccounted(h: Digest, w: World, born: map<string, int>, op: Op, id: string)
    requires Faithful(w, born) && Legal(w, op) && !Unrecordable(w, op) && id in w.sources
    ensures Accounted(Do(h, w, op), born, id)
  {
    hide Path, Allowed, Unrecordable;
    RefusedIff(w, op);
    var d := DraftOf(op, w.sources[op.id].state);
    var e := Event(d, Head(w.events), h(d, Head(w.events)));
    assert Do(h, w, op).events == w.events + [e];
    TrailExtends(w.events, e, id);
    assert Accounted(w, born, id);
    if id == op.id {
      PathExtends(Trail(w.events, id), w.sources[id].state, op.target) by {
        assert Allowed(w.sources[id].state, op.target);
      }
    } else {
      assert !IsTransitionOf(e, id);
      assert Trail(w.events, id) + [] == Trail(w.events, id);
    }
  }

  lemma NoteAccounted(h: Digest, w: World, born: map<string, int>, op: Op, id: string)
    requires Faithful(w, born) && op.Note? && Foreign(op) && id in w.sources
    ensures Accounted(Do(h, w, op), born, id)
  {
    hide Path;
    assert Accounted(w, born, id);
    var e := Event(op.draft, Head(w.events), h(op.draft, Head(w.events)));
    TrailExtends(w.events, e, id);
    assert Trail(w.events, id) + [] == Trail(w.events, id);
  }

  /** Each call leaves the log accounting for every source, except exactly the transitions
      whose event cannot be recorded: those move the source all the same. */
  lemma FaithfulIff(h: Digest, w: World, born: map<string, int>, op: Op)
    requires Faithful(w, born) && Foreign(op)
    ensures Faithful(Do(h, w, op), Born(born, w, op)) <==> !Unrecordable(w, op)
  {
    hide Path, Trail;
    var t, b := Do(h, w, op), Born(born, w, op);
    match op
    case Discover(s) =>
      if s.state.Discovered? && s.id !in w.sources {
        TrailOfStrangers(w.events, s.id);
        assert Path([], s.state) by { DiscoveredPath(); }
        assert Accounted(t, b, s.id);
        forall id | id in w.sources
          ensures Accounted(t, b, id)
        {
          assert Accounted(w, born, id);
        }
      }
    case Transition(id, _, _, _, _, _) =>
      if Legal(w, op) {
        RefusedIff(w, op);
        if Unrecordable(w, op) {
          assert Accounted(w, born, id);
          assert !Accounted(t, b, id);
        } else {
          forall other | other in w.sources
            ensures Accounted(t, b, other)
          {
            TransitionAccounted(h, w, born, op, other);
          }
        }
      }
    case Note(_) =>
      forall id | id in w.sources
        ensures Accounted(t, b, id)
      {
        NoteAccounted(h, w, born, op, id);
      }
  }

  lemma DiscoveredPath()
    ensures Path([], Discovered)
  {
  }

  // ------------------------------------------------------------------------- runs

  function Run(h: Digest, w: World, ops: seq<Op>): World
    decreases |ops|
  {
    if ops == [] then w else Run(h, Do(h, w, ops[0]), ops[1..])
  }

  function BornAfter(h: Digest, born: map<string, int>, w: World, ops: seq<Op>): map<string, int>
    decreases |ops|
  {
    if ops == [] then born else BornAfter(h, Born(born, w, ops[0]), Do(h, w, ops[0]), ops[1..])
  }

  predicate AllRecordable(h: Digest, w: World, ops: seq<Op>)
    decreases |ops|
  {
    ops != [] ==> !Unrecordable(w, ops[0]) && AllRecordable(h, Do(h, w, ops[0]), ops[1..])
  }

  ghost predicate FaithfulThroughout(h: Digest, born: map<string, int>, w: World, ops: seq<Op>)
    decreases |ops|
  {
    && Faithful(w, born)
    && (ops != [] ==> FaithfulThroughout(h, Born(born, w, ops[0]), Do(h, w, ops[0]), ops[1..]))
  }

  /** Over any run, the log accounts for every source at every moment if and only if each
      legal transition came with a new identifier and fields in range. */
  lemma {:induction false} FaithfulThroughoutIff(h: Digest, born: map<string, int>, w: World, ops: seq<Op>)
    requires Faithful(w, born) && forall op :: op in ops ==> Foreign(op)
    ensures FaithfulThroughout(h, born, w, ops) <==> AllRecordable(h, w, ops)
    decreases |ops|
  {
    hide Faithful, Do, Born, Unrecordable, Foreign;
    if ops != [] {
      FaithfulIff(h, w, born, ops[0]);
      if !Unrecordable(w, ops[0]) {
        FaithfulThroughoutIff(h, Born(born, w, ops[0]), Do(h, w, ops[0]), ops[1..]);
      } else {
        assert !Faithful(Do(h, w, ops[0]), Born(born, w, ops[0]));
      }
    }
  }

  lemma {:induction false} FaithfulAtEnd(h: Digest, born: map<string, int>, w: World, ops: seq<Op>)
    requires FaithfulThroughout(h, born, w, ops)
    ensures Faithful(Run(h, w, ops), BornAfter(h, born, w, ops))
    decreases |ops|
  {
    hide Faithful, Do, Born;
    if ops != [] {
      FaithfulAtEnd(h, Born(born, w, ops[0]), Do(h, w, ops[0]), ops[1..]);
    }
  }

  /** So after a run from nothing in which every legal transition could be recorded, each
      source's events are a legal path to its state and its version counts them. */
  lemma TrailAccountsForState(h: Digest, ops: seq<Op>, id: string)
    requires (forall op :: op in ops ==> Foreign(op)) && AllRecordable(h, EMPTY, ops)
    ensures var w, born := Run(h, EMPTY, ops), BornAfter(h, map[], EMPTY, ops);
            id in w.sources ==>
              && id in born
              && Path(Trail(w.events, id), w.sources[id].state)
              && w.sources[id].version == born[id] + |Trail(w.events, id)|
  {
    hide Run, BornAfter, AllRecordable, FaithfulThroughout, Path, Trail, Foreign;
    FaithfulThroughoutIff(h, map[], EMPTY, ops);
    FaithfulAtEnd(h, map[], EMPTY, ops);
    var w, born := Run(h, EMPTY, ops), BornAfter(h, map[], EMPTY, ops);
    assert id in w.sources ==> Accounted(w, born, id);
  }

  /** Recordable or not, the chain verifies after every run, and events are only ever added. */
  lemma {:induction false} ChainAlwaysValid(h: Digest, w: World, ops: seq<Op>)
    requires ChainValid(h, w.events)
    ensures ChainValid(h, Run(h, w, ops).events) && w.events <= Run(h, w, ops).events
    decreases |ops|
  {
    hide ChainValid;
    if ops != [] {
      var op := ops[0];
      if Legal(w, op) {
        RecordKeepsChain(h, w.events, DraftOf(op, w.sources[op.id].state));
      } else if op.Note? {
        RecordKeepsChain(h, w.events, op.draft);
      }
      ChainAlwaysValid(h, Do(h, w, op), ops[1..]);
    }
  }

  // ----------------------------------------------------------- what goes through

  /** A source that exists moves between exactly these nine pairs of states; any other move is
      refused as illegal, a move of any other source as unknown, and neither changes anything. */
  lemma IllegalIff(h: Digest, w: World, op: Op)
    requires op.Transition?
    ensures op.id !in w.sources <==> Answer(w, op) == Err(NotFound)
    ensures op.id in w.sources ==>
              (Answer(w, op) != Err(Illegal) <==>
                 (w.sources[op.id].state, op.target) in
                 {(Discovered, AccessRequested), (AccessRequested, SampleAcquired), (SampleAcquired, Validated),
                  (Validated, Authorized), (Authorized, Operational), (Operational, Suspended), (Operational, Retired),
                  (Suspended, Operational), (Suspended, Retired)})
    ensures Answer(w, op) == Err(Illegal) || Answer(w, op) == Err(NotFound) ==> Do(h, w, op) == w
  {
  }

  /** A legal move with a recordable event answers the source as it is filed from then on: in
      its new state, one version up, at the given instant. The event is the last of the log,
      names both states, and no other source is touched. */
  lemma MovedAsAsked(h: Digest, w: World, op: Op)
    requires op.Transition? && op.id in w.sources && Answer(w, op) != Err(Illegal)
    requires Bounded(op.eventId, 200) && Bounded(op.actorId, 200) && Bounded(op.id, 200) && Bounded(op.reason, 4000)
    requires op.at.offset == Some(0) && forall e :: e in w.events ==> e.draft.eventId != op.eventId
    ensures var was, t := w.sources[op.id], Do(h, w, op);
            && t.sources == w.sources[op.id := Source(was.id, was.owner, was.domain, op.target, was.version + 1, op.at)]
            && Answer(w, op) == Ok(t.sources[op.id])
            && |t.events| == |w.events| + 1 && t.events[..|w.events|] == w.events
            && var d := t.events[|w.events|].draft;
               && d.eventId == op.eventId && d.occurredAt == op.at && d.actorId == op.actorId && d.reason == op.reason
               && d.action == "SOURCE_STATE_TRANSITION" && d.subjectType == "SourceRecord" && d.subjectId == op.id
               && d.attributes == map["from_state" := Name(was.state), "to_state" := Name(op.target)]
  {
    RefusedIff(w, op);
  }

  /** The whole life of a source: along the route, suspended and restored, and retired. */
  const LIFE := [AccessRequested, SampleAcquired, Validated, Authorized, Operational, Suspended, Operational, Retired]

  datatype Entry = Entry(actorId: string, reason: string, at: Instant, eventId: string)

  function Life(id: string, entries: seq<Entry>): seq<Op>
    requires |entries| <= |LIFE|
  {
    seq(|entries|, k requires 0 <= k < |entries| =>
      Transition(id, LIFE[k], entries[k].actorId, entries[k].reason, entries[k].at, entries[k].eventId))
  }

  /** Entries that the log takes, one after the other. */
  predicate Recordable(w: World, entries: seq<Entry>) {
    && (forall k :: 0 <= k < |entries| ==>
          && Bounded(entries[k].eventId, 200) && Bounded(entries[k].actorId, 200) && Bounded(entries[k].reason, 4000)
          && entries[k].at.offset == Some(0) && forall e :: e in w.events ==> e.draft.eventId != entries[k].eventId)
    && forall j, k :: 0 <= j < k < |entries| ==> entries[j].eventId != entries[k].eventId
  }

  lemma {:induction false} LivesFrom(h: Digest, w: World, id: string, entries: seq<Entry>, k: nat)
    requires 0 < k <= |entries| <= |LIFE| && Bounded(id, 200) && id in w.sources && w.sources[id].state == LIFE[k - 1]
    requires Recordable(w, entries[k..])
    ensures var t := Run(h, w, Life(id, entries)[k..]);
            id in t.sources && t.sources[id].state == LIFE[|entries| - 1] && t.sources[id].version == w.sources[id].version + |entries| - k
    decreases |entries| - k
  {
    if k < |entries| {
      var ops := Life(id, entries)[k..];
      var rest := entries[k..];
      assert ops[0] == Transition(id, LIFE[k], rest[0].actorId, rest[0].reason, rest[0].at, rest[0].eventId);
      assert ops[1..] == Life(id, entries)[k + 1..];
      Succession(k);
      IllegalIff(h, w, ops[0]);
      MovedAsAsked(h, w, ops[0]);
      hide Do, Answer, Life, Bounded;
      StillRecordable(h, w, ops[0], rest);
      assert rest[1..] == entries[k + 1..];
      LivesFrom(h, Do(h, w, ops[0]), id, entries, k + 1);
    }
  }

  lemma Succession(k: nat)
    requires 0 < k < |LIFE|
    ensures (LIFE[k - 1], LIFE[k]) in
            {(AccessRequested, SampleAcquired), (SampleAcquired, Validated), (Validated, Authorized),
             (Authorized, Operational), (Operational, Suspended), (Suspended, Operational), (Operational, Retired)}
  {
  }

  lemma StillRecordable(h: Digest, w: World, op: Op, entries: seq<Entry>)
    requires Recordable(w, entries) && entries != [] && op.Transition? && op.eventId == entries[0].eventId
    ensures Recordable(Do(h, w, op), entries[1..])
  {
    hide Bounded, WellFormed, HasId, Allowed;
    assert forall e :: e in Do(h, w, op).events ==> e in w.events || e.draft.eventId == op.eventId;
  }

  /** Any source can live the whole of it, or any part, with events that are new and within
      bounds: after five moves it is OPERATIONAL, after six SUSPENDED, then OPERATIONAL again,
      and after eight RETIRED. */
  lemma SourceLives(h: Digest, s: Source, entries: seq<Entry>)
    requires s.state.Discovered? && Bounded(s.id, 200) && 0 < |entries| <= 8 && Recordable(EMPTY, entries)
    ensures var t := Run(h, EMPTY, [Discover(s)] + Life(s.id, entries));
            && s.id in t.sources && t.sources[s.id].version == s.version + |entries|
            && t.sources[s.id].state == [AccessRequested, SampleAcquired, Validated, Authorized,
                                         Operational, Suspended, Operational, Retired][|entries| - 1]
  {
    var w, ops := Do(h, EMPTY, Discover(s)), Life(s.id, entries);
    assert ([Discover(s)] + ops)[1..] == ops;
    assert ops[0] == Transition(s.id, AccessRequested, entries[0].actorId, entries[0].reason, entries[0].at, entries[0].eventId);
    IllegalIff(h, w, ops[0]);
    MovedAsAsked(h, w, ops[0]);
    assert entries[0..] == entries && Recordable(w, entries);
    StillRecordable(h, w, ops[0], entries);
    LivesFrom(h, Do(h, w, ops[0]), s.id, entries, 1);
    hide Do;
  }

  // ----------------------------------------------------------------------- limits

  /** A transition whose event cannot be recorded reports failure, has moved the source, and
      cannot be made good: the same transition is no longer legal, whatever its event. */
  lemma UnrecordableMovesAnyway(h: Digest, w: World, op: Op, retry: Op)
    requires Unrecordable(w, op) && retry.Transition? && retry.id == op.id && retry.target == op.target
    ensures Answer(w, op).Err? && Answer(w, op).error.AuditFailed?
    ensures var t := Do(h, w, op);
            && t.events == w.events
            && t.sources[op.id].state == op.target && t.sources[op.id].version == w.sources[op.id].version + 1
            && Answer(t, retry) == Err(Illegal)
  {
  }

  const ROUTE := [AccessRequested, SampleAcquired, Validated, Authorized, Operational]

  /** The trail shows every state of the route up to the current one, in order. */
  predicate Shows(trail: seq<map<string, string>>, steps: nat)
    requires steps <= |ROUTE|
  {
    && steps <= |trail|
    && forall k :: 0 <= k < steps ==> "to_state" in trail[k] && trail[k]["to_state"] == Name(ROUTE[k])
  }

  function Steps(s: State): (n: nat)
    ensures n <= |ROUTE|
  {
    match s
    case Discovered => 0
    case AccessRequested => 1
    case SampleAcquired => 2
    case Validated => 3
    case Authorized => 4
    case _ => 5
  }

  lemma ShowsNothing(trail: seq<map<string, string>>)
    ensures Shows(trail, Steps(Discovered))
  {
  }

  /** No source guides citizens before its trail shows access, sample, validation and
      authorization, in that order. */
  lemma {:induction false} TrailShowsRoute(trail: seq<map<string, string>>, state: State)
    requires Path(trail, state)
    ensures Shows(trail, Steps(state))
    decreases |trail|
  {
    hide Name, Shows, Allowed;
    if trail == [] {
      ShowsNothing(trail);
    } else {
      var init, last := trail[..|trail| - 1], trail[|trail| - 1];
      var from :| Allowed(from, state) && last == map["from_state" := Name(from), "to_state" := Name(state)] && Path(init, from);
      hide Path, Steps;
      TrailShowsRoute(init, from);
      ShowsOneMore(init, last, from, state);
      assert init + [last] == trail;
    }
  }

  lemma {:induction false} PathBefore(trail: seq<map<string, string>>, state: State)
    requires Path(trail, state) && Steps(state) < |ROUTE|
    ensures |trail| == Steps(state)
    decreases |trail|
  {
    hide Name;
    if trail != [] {
      var init, last := trail[..|trail| - 1], trail[|trail| - 1];
      var from :| Allowed(from, state) && last == map["from_state" := Name(from), "to_state" := Name(state)] && Path(init, from);
      hide Path;
      PathBefore(init, from);
    }
  }

  lemma ShowsOneMore(init: seq<map<string, string>>, last: map<string, string>, from: State, to: State)
    requires Shows(init, Steps(from)) && Allowed(from, to) && Path(init, from)
    requires last == map["from_state" := Name(from), "to_state" := Name(to)]
    ensures Shows(init + [last], Steps(to))
  {
    hide Path, Name;
    if Steps(from) < |ROUTE| {
      PathBefore(init, from);
      assert Steps(to) == Steps(from) + 1 && ROUTE[Steps(from)] == to;
      assert (init + [last])[Steps(from)] == last;
    }
  }

  /** What the operational check stands on: after a run from nothing in which every legal
      transition could be recorded, a source that may guide citizens has all five steps of
      the route in its trail, in order, and has moved at least that often. */
  lemma GuidanceIsAuthorized(h: Digest, ops: seq<Op>, id: string)
    requires (forall op :: op in ops ==> Foreign(op)) && AllRecordable(h, EMPTY, ops)
    ensures var w, born := Run(h, EMPTY, ops), BornAfter(h, map[], EMPTY, ops);
            id in w.sources && w.sources[id].state.Operational? ==>
              && Shows(Trail(w.events, id), |ROUTE|)
              && id in born && w.sources[id].version >= born[id] + |ROUTE|
  {
    hide Run, BornAfter, AllRecordable, Path, Trail, Foreign;
    TrailAccountsForState(h, ops, id);
    var w := Run(h, EMPTY, ops);
    if id in w.sources && w.sources[id].state.Operational? {
      TrailShowsRoute(Trail(w.events, id), Operational);
    }
  }
}
