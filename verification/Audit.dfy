/** The hash-chained audit log. The digest of an event is a parameter: a function of its
    contents and of the digest before it. */
module Audit {
  import opened Wrappers

  const ZEROS16 := "0000000000000000"
  const GENESIS := ZEROS16 + ZEROS16 + ZEROS16 + ZEROS16

  /** `offset` is the distance from UTC; a naive timestamp has none. */
  datatype Instant = Instant(micros: int, offset: Option<int>)

  datatype Draft = Draft(eventId: string, occurredAt: Instant, actorId: string, action: string,
                         subjectType: string, subjectId: string, reason: string, attributes: map<string, string>)

  datatype Event = Event(draft: Draft, previousHash: string, eventHash: string)

  type Digest = (Draft, string) -> string

  datatype Refusal = Invalid | Duplicate | BrokenChain

  predicate Bounded(s: string, max: nat) {
    1 <= |s| <= max
  }

  /** What the event model checks of its fields. */
  predicate WellFormed(d: Draft) {
    && Bounded(d.eventId, 200) && Bounded(d.actorId, 200) && Bounded(d.action, 200)
    && Bounded(d.subjectType, 200) && Bounded(d.subjectId, 200) && Bounded(d.reason, 4000)
    && d.occurredAt.offset == Some(0)
  }

  function Head(events: seq<Event>): string {
    if events == [] then GENESIS else events[|events| - 1].eventHash
  }

  predicate Linked(h: Digest, events: seq<Event>, k: nat)
    requires k < |events|
  {
    events[k].previousHash == Head(events[..k]) && events[k].eventHash == h(events[k].draft, events[k].previousHash)
  }

  predicate SameId(events: seq<Event>, j: nat, k: nat)
    requires j < k < |events|
  {
    events[j].draft.eventId == events[k].draft.eventId
  }

  predicate HasId(events: seq<Event>, id: string) {
    exists k :: 0 <= k < |events| && events[k].draft.eventId == id
  }

  /** Each event carries its predecessor's digest and its own, and no identifier repeats. */
  ghost predicate ChainValid(h: Digest, events: seq<Event>) {
    && (forall k :: 0 <= k < |events| ==> Linked(h, events, k))
    && forall j, k :: 0 <= j < k < |events| ==> !SameId(events, j, k)
  }

  lemma ChainExtends(h: Digest, events: seq<Event>, e: Event)
    requires ChainValid(h, events)
    ensures ChainValid(h, events + [e]) <==>
            !HasId(events, e.draft.eventId) && e.previousHash == Head(events) && e.eventHash == h(e.draft, e.previousHash)
  {
    var more, n := events + [e], |events|;
    assert more[..n] == events;
    forall k | 0 <= k < n
      ensures Linked(h, more, k)
    {
      assert Linked(h, events, k) && more[..k] == events[..k];
    }
    assert Linked(h, more, n) <==> e.previousHash == Head(events) && e.eventHash == h(e.draft, e.previousHash);
    forall j, k | 0 <= j < k < n
      ensures !SameId(more, j, k)
    {
      assert !SameId(events, j, k);
    }
    if HasId(events, e.draft.eventId) {
      var j :| 0 <= j < n && events[j].draft.eventId == e.draft.eventId;
      assert SameId(more, j, n);
    }
  }

  lemma ChainPrefix(h: Digest, events: seq<Event>, n: nat)
    requires ChainValid(h, events) && n <= |events|
    ensures ChainValid(h, events[..n])
  {
    forall k | 0 <= k < n
      ensures Linked(h, events[..n], k)
    {
      assert Linked(h, events, k) && events[..n][..k] == events[..k];
    }
    forall j, k | 0 <= j < k < n
      ensures !SameId(events[..n], j, k)
    {
      assert !SameId(events, j, k);
    }
  }

  /** Accepts exactly the valid chains, and otherwise names the first event that breaks one. */
  method VerifyChain(h: Digest, events: seq<Event>) returns (r: Result<bool, string>)
    ensures r.Ok? <==> ChainValid(h, events)
    ensures r.Ok? ==> r.value
    ensures r.Err? ==> exists k :: 0 <= k < |events| && events[k].draft.eventId == r.error
                                   && ChainValid(h, events[..k]) && !ChainValid(h, events[..k + 1])
  {
    assert ChainValid(h, events[..0]);
    hide ChainValid;
    var expectedPrevious := GENESIS;
    var seen: set<string> := {};
    for i := 0 to |events|
      invariant ChainValid(h, events[..i]) && expectedPrevious == Head(events[..i])
      invariant forall id :: id in seen <==> HasId(events[..i], id)
    {
      var event := events[i];
      assert events[..i + 1] == events[..i] + [event];
      ChainExtends(h, events[..i], event);
      if event.draft.eventId in seen || event.previousHash != expectedPrevious || event.eventHash != h(event.draft, event.previousHash) {
        if ChainValid(h, events) {
          ChainPrefix(h, events, i + 1);
        }
        return Err(event.draft.eventId);
      }
      HasIdExtends(events[..i], event);
      seen := seen + {event.draft.eventId};
      expectedPrevious := event.eventHash;
    }
    assert events[..|events|] == events;
    r := Ok(true);
  }

  lemma HasIdExtends(events: seq<Event>, e: Event)
    ensures forall id :: HasId(events + [e], id) <==> HasId(events, id) || id == e.draft.eventId
  {
    var more := events + [e];
    assert more[|events|] == e;
    forall id
      ensures HasId(more, id) <==> HasId(events, id) || id == e.draft.eventId
    {
      if HasId(events, id) {
        var k :| 0 <= k < |events| && events[k].draft.eventId == id;
        assert more[k] == events[k];
      }
    }
  }

  // ---------------------------------------------------------------------- tamper evidence

  ghost predicate CollisionFree(h: Digest) {
    && (forall d, p, e, q :: h(d, p) == h(e, q) ==> d == e && p == q)
    && forall d, p :: h(d, p) != GENESIS
  }

  /** With a digest that never collides and never yields the genesis value, a valid chain is
      determined by its head: no event of it can be altered, dropped, added or moved. */
  lemma {:induction false} HeadDeterminesChain(h: Digest, a: seq<Event>, b: seq<Event>)
    requires CollisionFree(h) && ChainValid(h, a) && ChainValid(h, b) && Head(a) == Head(b)
    ensures a == b
    decreases |a|
  {
    var m, n := |a| - 1, |b| - 1;
    assert (a != [] ==> Linked(h, a, m)) && (b != [] ==> Linked(h, b, n));
    if a != [] && b != [] {
      assert h(a[m].draft, a[m].previousHash) == h(b[n].draft, b[n].previousHash);
      ChainPrefix(h, a, m);
      ChainPrefix(h, b, n);
      HeadDeterminesChain(h, a[..m], b[..n]);
      assert a == a[..m] + [a[m]] && b == b[..n] + [b[n]];
    }
  }

  // -------------------------------------------------------------------------- objects

  class DeterministicAuditRepository {
    const hash: Digest
    var events: seq<Event>

    ghost predicate Valid()
      reads this
    {
      ChainValid(hash, events)
    }

    constructor (hash: Digest)
      ensures this.hash == hash && events == [] && Valid()
    {
      this.hash := hash;
      events := [];
    }

    method HeadHash() returns (head: string)
      ensures head == Head(events)
    {
      head := if |events| > 0 then events[|events| - 1].eventHash else GENESIS;
    }

    /** Takes exactly the events that keep the chain valid. */
    method Append(event: Event) returns (refusal: Option<Refusal>)
      requires Valid()
      modifies this`events
      ensures Valid()
      ensures refusal.None? <==> ChainValid(hash, old(events) + [event])
      ensures refusal == Some(Duplicate) <==> HasId(old(events), event.draft.eventId)
      ensures events == if refusal.None? then old(events) + [event] else old(events)
    {
      ChainExtends(hash, events, event);
      if exists k :: 0 <= k < |events| && events[k].draft.eventId == event.draft.eventId {
        return Some(Duplicate);
      }
      var head := HeadHash();
      if event.previousHash != head {
        return Some(BrokenChain);
      }
      var verdict := VerifyChain(hash, events + [event]);
      if verdict.Err? {
        return Some(BrokenChain);
      }
      events := events + [event];
      refusal := None;
    }
  }

  function Refused(events: seq<Event>, d: Draft): Option<Refusal> {
    if !WellFormed(d) then Some(Invalid) else if HasId(events, d.eventId) then Some(Duplicate) else None
  }

  function Recorded(h: Digest, events: seq<Event>, d: Draft): seq<Event> {
    if Refused(events, d).Some? then events else events + [Event(d, Head(events), h(d, Head(events)))]
  }

  /** An event is recorded exactly when its six names and texts are within bounds, its instant
      is in UTC and its identifier is new. It is then the last of the log, behind the head. */
  lemma RecordedIff(h: Digest, events: seq<Event>, d: Draft)
    ensures var inRange := && 1 <= |d.eventId| <= 200 && 1 <= |d.actorId| <= 200 && 1 <= |d.action| <= 200
                           && 1 <= |d.subjectType| <= 200 && 1 <= |d.subjectId| <= 200 && 1 <= |d.reason| <= 4000
                           && d.occurredAt.offset == Some(0);
            var isNew := forall e :: e in events ==> e.draft.eventId != d.eventId;
            && (!inRange <==> Refused(events, d) == Some(Invalid))
            && (inRange && !isNew <==> Refused(events, d) == Some(Duplicate))
            && Recorded(h, events, d) == if inRange && isNew then events + [Event(d, Head(events), h(d, Head(events)))] else events
  {
  }

  lemma RecordKeepsChain(h: Digest, events: seq<Event>, d: Draft)
    requires ChainValid(h, events)
    ensures ChainValid(h, Recorded(h, events, d))
  {
    ChainExtends(h, events, Event(d, Head(events), h(d, Head(events))));
  }

  class AuditService {
    const repository: DeterministicAuditRepository

    constructor (repository: DeterministicAuditRepository)
      ensures this.repository == repository
    {
      this.repository := repository;
    }

    /** Records every well-formed event with a new identifier; the chain can refuse no other. */
    method Record(d: Draft) returns (r: Result<Event, Refusal>)
      requires repository.Valid()
      modifies repository`events
      ensures repository.Valid()
      ensures repository.events == Recorded(repository.hash, old(repository.events), d)
      ensures match Refused(old(repository.events), d)
              case Some(refusal) => r == Err(refusal)
              case None => r.Ok? && repository.events == old(repository.events) + [r.value]
    {
      var previousHash := repository.HeadHash();
      var event := Event(d, previousHash, repository.hash(d, previousHash));
      if !WellFormed(d) {
        return Err(Invalid);
      }
      ChainExtends(repository.hash, repository.events, event);
      var refusal := repository.Append(event);
      if refusal.Some? {
        return Err(refusal.value);
      }
      r := Ok(event);
    }
  }
}
