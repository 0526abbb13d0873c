/** The CAP update, cancel and expiry lifecycle (section 3.2.1 of OASIS CAP v1.2).
    Instants are integers. */
module CapLifecycle {
  import opened Wrappers

  datatype MsgType = Alert | Update | Cancel | Ack | Error

  datatype LifecycleState = Active | Superseded | Cancelled | Expired

  datatype Parsed = Parsed(identifier: string, msgType: MsgType, sent: int, expires: int, references: seq<string>, sha256: string)

  datatype Stored = Stored(parsed: Parsed, sent: int)

  datatype QuarantineReason = ParseFailure | UnknownReference | StaleUpdate

  datatype Quarantined = Quarantined(reason: QuarantineReason, sha256: string, at: int)

  datatype Book = Book(byID: map<string, seq<Stored>>, state: map<string, LifecycleState>, quarantine: seq<Quarantined>)

  const EMPTY := Book(map[], map[], [])

  // ------------------------------------------------------------------ references

  predicate IsSpace(c: char) {
    || '\t' <= c <= '\r' || c == ' ' || c == '\U{0085}' || c == '\U{00A0}' || c == '\U{1680}'
    || '\U{2000}' <= c <= '\U{200A}' || c == '\U{2028}' || c == '\U{2029}' || c == '\U{202F}' || c == '\U{205F}' || c == '\U{3000}'
  }

  function TrimLeft(s: string): string {
    if s != "" && IsSpace(s[0]) then TrimLeft(s[1..]) else s
  }

  function TrimRight(s: string): string {
    if s != "" && IsSpace(s[|s| - 1]) then TrimRight(s[..|s| - 1]) else s
  }

  function TrimSpace(s: string): string { TrimRight(TrimLeft(s)) }

  /** The text up to the next comma, and what follows the comma if there is one. */
  function UpToComma(s: string): (r: (string, Option<string>))
    ensures r.1.Some? ==> |r.1.value| < |s|
  {
    if s == "" then ("", None)
    else if s[0] == ',' then ("", Some(s[1..]))
    else
      var (head, rest) := UpToComma(s[1..]);
      ([s[0]] + head, rest)
  }

  /** A reference is a "sender,identifier,sent" triple or a bare identifier. */
  function Candidate(ref: string): string {
    match UpToComma(ref).1
    case None => TrimSpace(ref)
    case Some(rest) => TrimSpace(TrimSpace(UpToComma(rest).0))
  }

  function Resolve(known: set<string>, refs: seq<string>): string {
    if refs == [] then ""
    else if Candidate(refs[0]) in known then Candidate(refs[0])
    else Resolve(known, refs[1..])
  }

  lemma {:induction false} UpToCommaSplits(a: string, b: string)
    requires ',' !in a
    ensures UpToComma(a + "," + b) == (a, Some(b)) && UpToComma(a) == (a, None)
  {
    if a == "" {
      assert a + "," + b == "," + b && ("," + b)[1..] == b;
    } else {
      UpToCommaSplits(a[1..], b);
      assert (a + "," + b)[1..] == a[1..] + "," + b;
      assert a[0] != ',' && [a[0]] + a[1..] == a && (a + "," + b)[0] == a[0];
    }
  }

  /** The characters that Go trims, one by one. */
  const SPACES := "\t\n\U{000B}\U{000C}\r \U{0085}\U{00A0}\U{1680}\U{2000}\U{2001}\U{2002}\U{2003}\U{2004}\U{2005}"
    + "\U{2006}\U{2007}\U{2008}\U{2009}\U{200A}\U{2028}\U{2029}\U{202F}\U{205F}\U{3000}"

  lemma SpacesAre(c: char)
    ensures IsSpace(c) <==> c in SPACES
  {
  }

  predicate AllSpace(s: string) {
    forall k :: 0 <= k < |s| ==> IsSpace(s[k])
  }

  /** Text that neither begins nor ends with space. */
  predicate Bare(s: string) {
    s != "" ==> !IsSpace(s[0]) && !IsSpace(s[|s| - 1])
  }

  lemma {:induction false} TrimsLeft(left: string, s: string)
    requires AllSpace(left) && (s == "" || !IsSpace(s[0]))
    ensures TrimLeft(left + s) == s
  {
    if left == "" {
      assert left + s == s;
    } else {
      TrimsLeft(left[1..], s);
      assert (left + s)[1..] == left[1..] + s;
    }
  }

  lemma {:induction false} TrimsRight(s: string, right: string)
    requires AllSpace(right) && (s == "" || !IsSpace(s[|s| - 1]))
    ensures TrimRight(s + right) == s
  {
    if right == "" {
      assert s + right == s;
    } else {
      var n := |right| - 1;
      TrimsRight(s, right[..n]);
      assert (s + right)[..|s + right| - 1] == s + right[..n];
    }
  }

  lemma {:induction false} TrimsAll(s: string)
    requires AllSpace(s)
    ensures TrimLeft(s) == ""
  {
    if s != "" {
      TrimsAll(s[1..]);
    }
  }

  /** Trimming takes away exactly the space on both sides. */
  lemma Trims(left: string, s: string, right: string)
    requires AllSpace(left) && AllSpace(right) && Bare(s)
    ensures TrimSpace(left + s + right) == s
  {
    hide IsSpace;
    if s == "" {
      TrimsAll(left + s + right);
      assert TrimRight("") == "";
    } else {
      assert left + s + right == left + (s + right) && (s + right)[0] == s[0];
      TrimsLeft(left, s + right);
      TrimsRight(s, right);
    }
  }

  /** Both reference forms of section 3.2.1 name their identifier, whatever space is around it. */
  lemma CandidateIsIdentifier(sender: string, left: string, id: string, right: string, sent: string)
    requires ',' !in sender && ',' !in id && Bare(id) && AllSpace(left) && AllSpace(right)
    ensures var field := left + id + right;
            Candidate(sender + "," + field + "," + sent) == Candidate(sender + "," + field) == Candidate(field) == id
  {
    var field := left + id + right;
    SpaceHasNoComma(left);
    SpaceHasNoComma(right);
    UpToCommaSplits(sender, field + "," + sent);
    UpToCommaSplits(sender, field);
    UpToCommaSplits(field, sent);
    assert sender + "," + field + "," + sent == sender + "," + (field + "," + sent);
    Trims(left, id, right);
    assert "" + id + "" == id;
    Trims("", id, "");
  }

  lemma SpaceHasNoComma(s: string)
    requires AllSpace(s)
    ensures ',' !in s
  {
  }

  /** The reference taken is the first that names something known. */
  lemma {:induction false} ResolveTakesFirstKnown(known: set<string>, refs: seq<string>, k: nat)
    requires k < |refs| && Candidate(refs[k]) in known
    requires forall j :: 0 <= j < k ==> Candidate(refs[j]) !in known
    ensures Resolve(known, refs) == Candidate(refs[k])
    decreases |refs|
  {
    if k > 0 {
      assert Candidate(refs[0]) !in known;
      ResolveTakesFirstKnown(known, refs[1..], k - 1);
    }
  }

  lemma {:induction false} ResolveFindsNone(known: set<string>, refs: seq<string>)
    requires forall ref :: ref in refs ==> Candidate(ref) !in known
    ensures Resolve(known, refs) == ""
    decreases |refs|
  {
    if refs != [] {
      ResolveFindsNone(known, refs[1..]);
    }
  }

  // ------------------------------------------------------------------- revisions

  function Revisions(b: Book, id: string): seq<Stored> {
    if id in b.byID then b.byID[id] else []
  }

  predicate IsDuplicate(revs: seq<Stored>, sent: int) {
    exists k :: 0 <= k < |revs| && revs[k].sent == sent
  }

  predicate IsStale(revs: seq<Stored>, sent: int) {
    revs != [] && sent <= revs[|revs| - 1].sent
  }

  /** A stable sort by `sent`: equal revisions keep their order. */
  function Insert(revs: seq<Stored>, s: Stored): seq<Stored> {
    if revs == [] || s.sent < revs[0].sent then [s] + revs else [revs[0]] + Insert(revs[1..], s)
  }

  function StableSort(revs: seq<Stored>): seq<Stored> {
    if revs == [] then [] else Insert(StableSort(revs[..|revs| - 1]), revs[|revs| - 1])
  }

  predicate Increasing(revs: seq<Stored>) {
    forall j, k :: 0 <= j < k < |revs| ==> revs[j].sent < revs[k].sent
  }

  lemma {:induction false} InsertLast(revs: seq<Stored>, s: Stored)
    requires Increasing(revs + [s])
    ensures Insert(revs, s) == revs + [s]
  {
    if revs != [] {
      assert (revs + [s])[0].sent < (revs + [s])[|revs|].sent;
      assert (revs + [s])[1..] == revs[1..] + [s];
      InsertLast(revs[1..], s);
    }
  }

  /** Sorting revisions that already increase changes nothing. */
  lemma {:induction false} SortIsNoOp(revs: seq<Stored>)
    requires Increasing(revs)
    ensures StableSort(revs) == revs
  {
    if revs != [] {
      var init := revs[..|revs| - 1];
      SortIsNoOp(init);
      assert init + [revs[|revs| - 1]] == revs;
      InsertLast(init, revs[|revs| - 1]);
    }
  }

  predicate Sorted(revs: seq<Stored>) {
    forall j, k :: 0 <= j < k < |revs| ==> revs[j].sent <= revs[k].sent
  }

  lemma {:induction false} InsertKeepsAll(revs: seq<Stored>, s: Stored)
    ensures multiset(Insert(revs, s)) == multiset(revs) + multiset{s}
  {
    if revs != [] && s.sent >= revs[0].sent {
      InsertKeepsAll(revs[1..], s);
      assert revs == [revs[0]] + revs[1..];
    }
  }

  lemma {:induction false} InsertSorts(revs: seq<Stored>, s: Stored)
    requires Sorted(revs)
    ensures Sorted(Insert(revs, s))
  {
    if revs != [] && s.sent >= revs[0].sent {
      InsertSorts(revs[1..], s);
      var tail := Insert(revs[1..], s);
      forall x | x in tail ensures revs[0].sent <= x.sent {
        InsertKeepsAll(revs[1..], s);
        assert x in multiset(tail);
        assert x in revs[1..] || x == s;
      }
    }
  }

  /** The revisions of one instant, in the order they stand. */
  function SentAt(revs: seq<Stored>, sent: int): seq<Stored> {
    if revs == [] then [] else (if revs[0].sent == sent then [revs[0]] else []) + SentAt(revs[1..], sent)
  }

  lemma {:induction false} SentBefore(revs: seq<Stored>, sent: int)
    requires Sorted(revs) && (revs != [] ==> sent < revs[0].sent)
    ensures SentAt(revs, sent) == []
  {
    if revs != [] {
      SentBefore(revs[1..], sent);
    }
  }

  lemma {:induction false} InsertIsStable(revs: seq<Stored>, s: Stored, sent: int)
    requires Sorted(revs)
    ensures SentAt(Insert(revs, s), sent) == SentAt(revs, sent) + if s.sent == sent then [s] else []
  {
    if revs == [] || s.sent < revs[0].sent {
      assert ([s] + revs)[1..] == revs;
      if s.sent == sent {
        SentBefore(revs, sent);
      }
    } else {
      InsertIsStable(revs[1..], s, sent);
      var more := Insert(revs, s);
      assert more[0] == revs[0] && more[1..] == Insert(revs[1..], s);
    }
  }

  lemma {:induction false} SentAtLast(revs: seq<Stored>, last: Stored, sent: int)
    ensures SentAt(revs + [last], sent) == SentAt(revs, sent) + if last.sent == sent then [last] else []
  {
    var more := revs + [last];
    if revs != [] {
      SentAtLast(revs[1..], last, sent);
      assert more[0] == revs[0] && more[1..] == revs[1..] + [last];
    } else {
      assert more[1..] == [];
    }
  }

  /** The sort is one: the same revisions, in order. */
  lemma {:induction false} StableSortSorts(revs: seq<Stored>)
    ensures multiset(StableSort(revs)) == multiset(revs) && Sorted(StableSort(revs))
  {
    if revs != [] {
      var init, last := revs[..|revs| - 1], revs[|revs| - 1];
      StableSortSorts(init);
      InsertKeepsAll(StableSort(init), last);
      InsertSorts(StableSort(init), last);
      assert revs == init + [last];
    }
  }

  /** And it is stable: revisions of one instant stay as they stood. */
  lemma {:induction false} StableSortIsStable(revs: seq<Stored>, sent: int)
    ensures SentAt(StableSort(revs), sent) == SentAt(revs, sent)
  {
    if revs != [] {
      var init, last := revs[..|revs| - 1], revs[|revs| - 1];
      StableSortIsStable(init, sent);
      StableSortSorts(init);
      hide Sorted, SentAt;
      InsertIsStable(StableSort(init), last, sent);
      SentAtLast(init, last, sent);
      assert init + [last] == revs;
    }
  }

  // ------------------------------------------------------------------ operations

  datatype IngestResult = IngestResult(identifier: string, state: Option<LifecycleState>, applied: bool)

  function Lookup(b: Book, id: string): Option<LifecycleState> {
    if id in b.state then Some(b.state[id]) else None
  }

  function Append(b: Book, id: string, p: Parsed, st: LifecycleState): Book {
    b.(byID := b.byID[id := StableSort(Revisions(b, id) + [Stored(p, p.sent)])], state := b.state[id := st])
  }

  function Quarantine(b: Book, reason: QuarantineReason, p: Parsed, now: int): Book {
    b.(quarantine := b.quarantine + [Quarantined(reason, p.sha256, now)])
  }

  /** Updates and cancellations refer to an alert; every other message starts one. */
  predicate FollowsUp(p: Parsed) {
    p.msgType.Update? || p.msgType.Cancel?
  }

  function IngestBook(b: Book, p: Parsed, now: int): (Book, IngestResult) {
    if FollowsUp(p) then
      var target := Resolve(b.byID.Keys, p.references);
      if target == "" then (Quarantine(b, UnknownReference, p, now), IngestResult(p.identifier, Lookup(b, p.identifier), false))
      else if IsStale(Revisions(b, target), p.sent) then
        (Quarantine(b, StaleUpdate, p, now), IngestResult(p.identifier, Lookup(b, target), false))
      else
        var st := if p.msgType.Cancel? then Cancelled else Superseded;
        (Append(b, target, p, st), IngestResult(target, Some(st), true))
    else
      var id := p.identifier;
      if IsDuplicate(Revisions(b, id), p.sent) then (b, IngestResult(id, Lookup(b, id), false))
      else if IsStale(Revisions(b, id), p.sent) then
        (Quarantine(b, StaleUpdate, p, now), IngestResult(id, Lookup(b, id), false))
      else (Append(b, id, p, Active), IngestResult(id, Some(Active), true))
  }

  predicate Expires(b: Book, id: string, now: int) {
    id in b.byID && b.byID[id] != [] && Lookup(b, id) == Some(Active) && b.byID[id][|b.byID[id]| - 1].parsed.expires <= now
  }

  function ExpireBook(b: Book, now: int): Book {
    b.(state := map id | id in b.state :: if Expires(b, id, now) then Expired else b.state[id])
  }

  // ------------------------------------------------------------------- invariant

  predicate InOrder(revs: seq<Stored>) {
    revs != [] && Increasing(revs) && forall k :: 0 <= k < |revs| ==> revs[k].sent == revs[k].parsed.sent
  }

  lemma LastIsNewest(revs: seq<Stored>, k: nat)
    requires InOrder(revs) && k < |revs|
    ensures revs[k].sent <= revs[|revs| - 1].sent == revs[|revs| - 1].parsed.sent
  {
  }

  lemma DuplicateIsStale(revs: seq<Stored>, sent: int)
    requires InOrder(revs) && IsDuplicate(revs, sent)
    ensures IsStale(revs, sent)
  {
  }

  /** Each known identifier has revisions, strictly increasing in `sent`, and a state. */
  ghost predicate Ordered(b: Book) {
    b.byID.Keys == b.state.Keys && forall id :: id in b.byID ==> InOrder(b.byID[id])
  }

  function Latest(b: Book, id: string): Option<Parsed> {
    if id in b.byID && b.byID[id] != [] then Some(b.byID[id][|b.byID[id]| - 1].parsed) else None
  }

  /** In an ordered book the sort does nothing, so a new revision is simply the last one. */
  lemma AppendKeepsOrder(b: Book, id: string, p: Parsed, st: LifecycleState)
    requires Ordered(b) && !IsStale(Revisions(b, id), p.sent)
    ensures Append(b, id, p, st) == Book(b.byID[id := Revisions(b, id) + [Stored(p, p.sent)]], b.state[id := st], b.quarantine)
    ensures Ordered(Append(b, id, p, st))
  {
    hide StableSort;
    var revs := Revisions(b, id);
    assert revs != [] ==> InOrder(revs);
    var more := revs + [Stored(p, p.sent)];
    assert InOrder(more) by {
      hide StableSort, Revisions;
      forall j, k | 0 <= j < k < |more| ensures more[j].sent < more[k].sent {
        assert k < |revs| || revs[j].sent <= revs[|revs| - 1].sent < p.sent;
      }
    }
    SortIsNoOp(more);
  }

  /** A message that is applied becomes the last revision of the identifier it is reported
      for; any other message leaves the revisions and the states alone. */
  lemma IngestShape(b: Book, p: Parsed, now: int)
    requires Ordered(b)
    ensures var (b1, r) := IngestBook(b, p, now);
            && Ordered(b1)
            && (r.applied ==>
                  && r.state.Some? && !IsStale(Revisions(b, r.identifier), p.sent)
                  && b1 == Book(b.byID[r.identifier := Revisions(b, r.identifier) + [Stored(p, p.sent)]],
                                b.state[r.identifier := r.state.value], b.quarantine))
            && (!r.applied ==>
                  && b1.byID == b.byID && b1.state == b.state
                  && b.quarantine <= b1.quarantine && |b1.quarantine| <= |b.quarantine| + 1)
  {
    hide Append, Revisions, IsStale, Ordered, Resolve;
    assert forall q :: b.(quarantine := q).byID == b.byID && b.(quarantine := q).state == b.state;
    QuarantineKeepsOrder(b, IngestBook(b, p, now).0.quarantine);
    if FollowsUp(p) {
      var target := Resolve(b.byID.Keys, p.references);
      if target != "" && !IsStale(Revisions(b, target), p.sent) {
        AppendKeepsOrder(b, target, p, if p.msgType.Cancel? then Cancelled else Superseded);
      }
    } else if !IsStale(Revisions(b, p.identifier), p.sent) {
      AppendKeepsOrder(b, p.identifier, p, Active);
    }
  }

  ghost predicate NewerThanAll(revs: seq<Stored>, sent: int) {
    forall k :: 0 <= k < |revs| ==> revs[k].sent < sent
  }

  lemma NotStaleIsNewer(revs: seq<Stored>, sent: int)
    requires revs != [] ==> InOrder(revs)
    ensures IsStale(revs, sent) <==> !NewerThanAll(revs, sent)
    ensures IsDuplicate(revs, sent) ==> IsStale(revs, sent)
  {
  }

  /** When a message is applied, and what becomes of it when it is not. */
  lemma AppliedIff(b: Book, p: Parsed, now: int)
    requires Ordered(b)
    ensures var (b1, r) := IngestBook(b, p, now);
            var target := Resolve(b.byID.Keys, p.references);
            && (!FollowsUp(p) ==>
                  && (r.applied <==> NewerThanAll(Revisions(b, p.identifier), p.sent))
                  && (r.applied ==> r == IngestResult(p.identifier, Some(Active), true))
                  && (!r.applied ==> b1.quarantine == b.quarantine +
                                       if IsDuplicate(Revisions(b, p.identifier), p.sent) then [] else [Quarantined(StaleUpdate, p.sha256, now)]))
            && (FollowsUp(p) ==>
                  && (r.applied <==> target != "" && NewerThanAll(Revisions(b, target), p.sent))
                  && (r.applied ==> r == IngestResult(target, Some(if p.msgType.Cancel? then Cancelled else Superseded), true))
                  && (!r.applied ==> b1.quarantine == b.quarantine +
                                       [Quarantined(if target == "" then UnknownReference else StaleUpdate, p.sha256, now)]))
  {
    NotStaleIsNewer(Revisions(b, p.identifier), p.sent);
    NotStaleIsNewer(Revisions(b, Resolve(b.byID.Keys, p.references)), p.sent);
    hide Resolve, Append, InOrder, IsStale, IsDuplicate, NewerThanAll;
  }

  /** A message that is not applied is answered for its own identifier, with the state of what
      it was measured against: the alert it refers to, if that is known, and else itself. */
  lemma RefusedAnswer(b: Book, p: Parsed, now: int)
    requires Ordered(b) && !IngestBook(b, p, now).1.applied
    ensures var r := IngestBook(b, p, now).1;
            && r.identifier == p.identifier
            && ((!FollowsUp(p) || forall ref :: ref in p.references ==> Candidate(ref) !in b.byID) ==>
                  r.state == if p.identifier in b.state then Some(b.state[p.identifier]) else None)
            && (FollowsUp(p) ==>
                  forall k :: 0 <= k < |p.references| && Candidate(p.references[k]) in b.byID && Candidate(p.references[k]) != ""
                              && (forall j :: 0 <= j < k ==> Candidate(p.references[j]) !in b.byID) ==>
                                r.state == Some(b.state[Candidate(p.references[k])]))
  {
    if FollowsUp(p) {
      if forall ref :: ref in p.references ==> Candidate(ref) !in b.byID {
        ResolveFindsNone(b.byID.Keys, p.references);
      }
      hide Candidate;
      forall k | 0 <= k < |p.references| && Candidate(p.references[k]) in b.byID && Candidate(p.references[k]) != ""
                 && (forall j :: 0 <= j < k ==> Candidate(p.references[j]) !in b.byID)
        ensures IngestBook(b, p, now).1.state == Some(b.state[Candidate(p.references[k])])
      {
        ResolveTakesFirstKnown(b.byID.Keys, p.references, k);
      }
    }
  }

  lemma QuarantineKeepsOrder(b: Book, q: seq<Quarantined>)
    requires Ordered(b)
    ensures Ordered(b.(quarantine := q))
  {
  }

  class Lifecycle {
    var byID: map<string, seq<Stored>>
    var state: map<string, LifecycleState>
    var quarantine: seq<Quarantined>

    ghost function View(): Book
      reads this
    {
      Book(byID, state, quarantine)
    }

    constructor ()
      ensures View() == EMPTY
    {
      byID, state, quarantine := map[], map[], [];
    }

    method ResolveReference(refs: seq<string>) returns (target: string)
      ensures target == Resolve(byID.Keys, refs)
    {
      for i := 0 to |refs|
        invariant Resolve(byID.Keys, refs) == Resolve(byID.Keys, refs[i..])
      {
        var candidate := refs[i];
        var parts := UpToComma(refs[i]);
        if parts.1.Some? {
          candidate := TrimSpace(UpToComma(parts.1.value).0);
        }
        candidate := TrimSpace(candidate);
        if candidate in byID {
          return candidate;
        }
      }
      target := "";
    }

    method IsDuplicateRevision(id: string, sent: int) returns (r: bool)
      ensures r == IsDuplicate(Revisions(View(), id), sent)
    {
      var revs := if id in byID then byID[id] else [];
      for i := 0 to |revs|
        invariant forall k :: 0 <= k < i ==> revs[k].sent != sent
      {
        if revs[i].sent == sent {
          return true;
        }
      }
      r := false;
    }

    method AppendRevision(id: string, p: Parsed)
      modifies this`byID
      ensures byID == old(byID)[id := StableSort(Revisions(old(View()), id) + [Stored(p, p.sent)])]
    {
      byID := byID[id := (if id in byID then byID[id] else []) + [Stored(p, p.sent)]];
      byID := byID[id := StableSort(byID[id])];
    }

    /** In every state the runs can reach, ingesting keeps the revisions in order and never
        moves the latest one of any identifier back. */
    method Ingest(p: Parsed, now: int) returns (r: IngestResult)
      requires Ordered(View())
      modifies this
      ensures (View(), r) == IngestBook(old(View()), p, now) && Ordered(View())
      ensures |quarantine| == |old(quarantine)| + 1 || r.applied || View() == old(View())
    {
      hide InOrder, StableSort, IsDuplicate, Resolve;
      IngestShape(View(), p, now);
      if FollowsUp(p) {
        var target := ResolveReference(p.references);
        if target == "" {
          quarantine := quarantine + [Quarantined(UnknownReference, p.sha256, now)];
          return IngestResult(p.identifier, if p.identifier in state then Some(state[p.identifier]) else None, false);
        }
        var revs := if target in byID then byID[target] else [];
        if |revs| > 0 && !(p.sent > revs[|revs| - 1].sent) {
          quarantine := quarantine + [Quarantined(StaleUpdate, p.sha256, now)];
          return IngestResult(p.identifier, if target in state then Some(state[target]) else None, false);
        }
        AppendRevision(target, p);
        if p.msgType.Cancel? {
          state := state[target := Cancelled];
        } else {
          state := state[target := Superseded];
        }
        return IngestResult(target, Some(state[target]), true);
      }
      var id := p.identifier;
      var current := if id in state then Some(state[id]) else None;
      var duplicate := IsDuplicateRevision(id, p.sent);
      if duplicate {
        return IngestResult(id, current, false);
      }
      var revs := if id in byID then byID[id] else [];
      if |revs| > 0 && !(p.sent > revs[|revs| - 1].sent) {
        quarantine := quarantine + [Quarantined(StaleUpdate, p.sha256, now)];
        return IngestResult(id, current, false);
      }
      AppendRevision(id, p);
      state := state[id := Active];
      r := IngestResult(id, Some(Active), true);
    }

    method QuarantineParse(sha256: string, now: int)
      modifies this`quarantine
      ensures quarantine == old(quarantine) + [Quarantined(ParseFailure, sha256, now)]
    {
      quarantine := quarantine + [Quarantined(ParseFailure, sha256, now)];
    }

    method Expire(now: int) returns (expired: set<string>)
      requires Ordered(View())
      modifies this`state
      ensures View() == ExpireBook(old(View()), now) && Ordered(View())
      ensures expired == set id | id in byID && Expires(old(View()), id, now)
    {
      hide ExpireBook, Ordered, Expires, Swept;
      ghost var was := View();
      expired := {};
      var todo := byID.Keys;
      SweptNothing(was, now);
      while todo != {}
        invariant todo <= byID.Keys
        invariant Swept(was, state, todo, now)
        invariant forall id :: id in expired <==> id in byID && id !in todo && Expires(was, id, now)
        decreases |todo|
      {
        var id :| id in todo;
        var revs := byID[id];
        ExpiresLast(was, id, now);
        SweepOne(was, state, todo, id, now);
        if state[id] == Active {
          var latest := revs[|revs| - 1].parsed;
          if !(latest.expires > now) {
            state := state[id := Expired];
            expired := expired + {id};
          }
        }
        todo := todo - {id};
      }
      ExpireIs(was, state, now);
    }
  }

  /** Everything but `todo` has been visited. */
  ghost predicate Swept(b: Book, state: map<string, LifecycleState>, todo: set<string>, now: int) {
    && state.Keys == b.state.Keys
    && forall id :: id in state ==> state[id] == if id !in todo && Expires(b, id, now) then Expired else b.state[id]
  }

  lemma SweptNothing(b: Book, now: int)
    requires Ordered(b)
    ensures Swept(b, b.state, b.byID.Keys, now)
  {
  }

  lemma SweepOne(b: Book, state: map<string, LifecycleState>, todo: set<string>, id: string, now: int)
    requires Ordered(b) && Swept(b, state, todo, now) && id in todo && todo <= b.byID.Keys
    ensures id in state && id in b.state && state[id] == b.state[id]
    ensures Swept(b, if Expires(b, id, now) then state[id := Expired] else state, todo - {id}, now)
  {
    hide InOrder;
  }

  lemma ExpiresLast(b: Book, id: string, now: int)
    requires Ordered(b) && id in b.byID
    ensures b.byID[id] != []
    ensures Expires(b, id, now) <==> b.state[id] == Active && b.byID[id][|b.byID[id]| - 1].parsed.expires <= now
  {
  }

  /** Expiry changes the state of each active identifier whose latest revision has run out,
      and nothing else. */
  lemma ExpireIs(b: Book, state: map<string, LifecycleState>, now: int)
    requires Ordered(b) && Swept(b, state, {}, now)
    ensures b.(state := state) == ExpireBook(b, now) && Ordered(ExpireBook(b, now))
  {
    hide InOrder, Expires;
    assert state == ExpireBook(b, now).state;
  }

  /** After a sweep an identifier is expired exactly when it was, or when it was active and its
      newest revision runs out at that instant or before; no other state and no revision changes. */
  lemma ExpiredIff(b: Book, now: int, id: string)
    requires Ordered(b) && id in b.byID
    ensures var t := ExpireBook(b, now);
            && t.byID == b.byID && t.quarantine == b.quarantine && t.state.Keys == b.state.Keys
            && (t.state[id] == Expired <==>
                  b.state[id] == Expired || (b.state[id] == Active && Latest(b, id).Some? && Latest(b, id).value.expires <= now))
            && (t.state[id] != Expired ==> t.state[id] == b.state[id])
  {
    hide Increasing;
  }

  // ------------------------------------------------------------------------ runs

  datatype Op = Ingest(p: Parsed, now: int) | Expire(now: int) | ParseFailed(sha256: string, now: int)

  function Do(b: Book, op: Op): Book {
    match op
    case Ingest(p, now) => IngestBook(b, p, now).0
    case Expire(now) => ExpireBook(b, now)
    case ParseFailed(sha, now) => b.(quarantine := b.quarantine + [Quarantined(ParseFailure, sha, now)])
  }

  function Run(b: Book, ops: seq<Op>): Book
    decreases |ops|
  {
    if ops == [] then b else Run(Do(b, ops[0]), ops[1..])
  }

  lemma DoKeepsOrder(b: Book, op: Op, id: string)
    requires Ordered(b)
    ensures Ordered(Do(b, op)) && Revisions(b, id) <= Revisions(Do(b, op), id)
  {
    hide InOrder;
    match op
    case Ingest(p, now) => hide IngestBook; IngestShape(b, p, now);
    case Expire(now) =>
    case ParseFailed(sha, now) =>
  }

  /** Over any run the book stays ordered, and the revisions of an identifier are only ever
      added to at the end. */
  lemma {:induction false} RevisionsOnlyGrow(b: Book, ops: seq<Op>, id: string)
    requires Ordered(b)
    ensures Ordered(Run(b, ops)) && Revisions(b, id) <= Revisions(Run(b, ops), id)
    decreases |ops|
  {
    hide Ordered, Do, Revisions;
    if ops != [] {
      DoKeepsOrder(b, ops[0], id);
      RevisionsOnlyGrow(Do(b, ops[0]), ops[1..], id);
    }
  }

  /** Hence the latest revision of an identifier is never lost, and any that takes its place
      was sent later. */
  lemma LatestOnlyMovesForward(b: Book, ops: seq<Op>, id: string)
    requires Ordered(b) && Latest(b, id).Some?
    ensures var after := Latest(Run(b, ops), id);
            after.Some? && (after == Latest(b, id) || after.value.sent > Latest(b, id).value.sent)
  {
    hide Run;
    RevisionsOnlyGrow(b, ops, id);
    var revs, more := Revisions(b, id), Revisions(Run(b, ops), id);
    LastIsNewest(revs, |revs| - 1);
    assert revs[|revs| - 1] == more[|revs| - 1];
    LastIsNewest(more, |revs| - 1);
    assert |more| > |revs| ==> more[|revs| - 1].sent < more[|more| - 1].sent;
  }

  /** EXPIRED is entered from ACTIVE alone, and a state is left for any other only by a
      message newer than all before it. */
  lemma StatesChangeLegally(b: Book, op: Op, id: string)
    requires Ordered(b) && id in b.state
    ensures id in Do(b, op).state
    ensures Do(b, op).state[id] != b.state[id] ==>
              || (op.Expire? && b.state[id] == Active && Do(b, op).state[id] == Expired)
              || (op.Ingest? && Latest(Do(b, op), id) == Some(op.p) && NewerThanAll(Revisions(b, id), op.p.sent))
  {
    hide InOrder;
    if op.Ingest? {
      IngestShape(b, op.p, op.now);
      NotStaleIsNewer(Revisions(b, id), op.p.sent);
      hide IngestBook, IsStale, NewerThanAll;
      var r := IngestBook(b, op.p, op.now).1;
      if r.applied && r.identifier == id {
        var more := Revisions(b, id) + [Stored(op.p, op.p.sent)];
        assert Do(b, op).byID[id] == more && more[|more| - 1].parsed == op.p;
      }
    }
  }

  /** A run without its parse failures. */
  function WithoutFailures(ops: seq<Op>): seq<Op> {
    if ops == [] then []
    else (if ops[0].ParseFailed? then [] else [ops[0]]) + WithoutFailures(ops[1..])
  }

  predicate SameAlerts(b: Book, c: Book) {
    b.byID == c.byID && b.state == c.state
  }

  lemma DoKeepsSame(b: Book, c: Book, op: Op)
    requires SameAlerts(b, c)
    ensures SameAlerts(Do(b, op), Do(c, op))
    ensures op.ParseFailed? ==> SameAlerts(Do(b, op), c)
    ensures b.quarantine <= Do(b, op).quarantine
  {
    hide Resolve, StableSort, IsStale, IsDuplicate;
    assert forall id, now :: Expires(b, id, now) == Expires(c, id, now);
  }

  /** Parse failures are kept for audit and never surface: wherever they occur in a run,
      revisions and states are those of the run without them, and what is quarantined stays,
      in order of arrival. */
  lemma {:induction false} ParseFailuresAreInert(b: Book, c: Book, ops: seq<Op>)
    requires SameAlerts(b, c)
    ensures SameAlerts(Run(b, ops), Run(c, WithoutFailures(ops)))
    ensures b.quarantine <= Run(b, ops).quarantine
    decreases |ops|
  {
    hide Do, SameAlerts;
    if ops != [] {
      var op, rest := ops[0], WithoutFailures(ops[1..]);
      DoKeepsSame(b, c, op);
      if op.ParseFailed? {
        assert WithoutFailures(ops) == rest;
        ParseFailuresAreInert(Do(b, op), c, ops[1..]);
      } else {
        assert WithoutFailures(ops) == [op] + rest && ([op] + rest)[1..] == rest;
        ParseFailuresAreInert(Do(b, op), Do(c, op), ops[1..]);
      }
    }
  }

  /** The identifier an applied message was applied to has, ever after, a revision sent when
      it was. */
  lemma AppliedStaysFiled(b: Book, p: Parsed, now: int, ops: seq<Op>)
    requires Ordered(b) && IngestBook(b, p, now).1.applied
    ensures var b1, id := Run(IngestBook(b, p, now).0, ops), IngestBook(b, p, now).1.identifier;
            && Ordered(b1) && IsDuplicate(Revisions(b1, id), p.sent) && !NewerThanAll(Revisions(b1, id), p.sent)
  {
    IngestShape(b, p, now);
    var b0, id := IngestBook(b, p, now).0, IngestBook(b, p, now).1.identifier;
    hide IngestBook, Run, Ordered, IsStale;
    RevisionsOnlyGrow(b0, ops, id);
    var k := |Revisions(b, id)|;
    assert Revisions(b0, id)[k] == Stored(p, p.sent);
    assert Revisions(Run(b0, ops), id)[k].sent == p.sent;
  }

  /** What a message gets from a book that has a revision sent when it was. */
  lemma IngestAgain(b: Book, p: Parsed, now: int, before: string)
    requires Ordered(b) && IsDuplicate(Revisions(b, before), p.sent) && !NewerThanAll(Revisions(b, before), p.sent)
    requires !FollowsUp(p) ==> before == p.identifier
    ensures var (b1, r) := IngestBook(b, p, now);
            var target := Resolve(b.byID.Keys, p.references);
            && (!FollowsUp(p) ==> b1 == b && !r.applied)
            && (FollowsUp(p) ==>
                  && (r.applied <==> target != "" && target != before && NewerThanAll(Revisions(b, target), p.sent))
                  && (!r.applied ==> b1 == Quarantine(b, if target == "" then UnknownReference else StaleUpdate, p, now))
                  && (r.applied ==> b1.byID != b.byID))
  {
    NotStaleIsNewer(Revisions(b, Resolve(b.byID.Keys, p.references)), p.sent);
    IngestShape(b, p, now);
    hide Resolve, Append, Ordered, IsStale, IsDuplicate, NewerThanAll;
    var r := IngestBook(b, p, now).1;
    if r.applied {
      var revs := Revisions(b, r.identifier);
      assert |revs + [Stored(p, p.sent)]| > |revs|;
    }
  }

  /** A message that was applied once, delivered again after any run: only an alert is the
      silent no-op that every duplicate is meant to be. An update or cancellation is
      quarantined, or even applied a second time: exactly when its references have come to
      name another identifier, and it is newer than all that this one has. */
  lemma RedeliveryIff(b: Book, p: Parsed, now: int, ops: seq<Op>, later: int)
    requires Ordered(b) && IngestBook(b, p, now).1.applied
    ensures var b1, before := Run(IngestBook(b, p, now).0, ops), IngestBook(b, p, now).1.identifier;
            var (b2, again), target := IngestBook(b1, p, later), Resolve(b1.byID.Keys, p.references);
            && (b2 == b1 <==> !FollowsUp(p))
            && (again.applied <==>
                  FollowsUp(p) && target != "" && target != before && NewerThanAll(Revisions(b1, target), p.sent))
            && (FollowsUp(p) && !again.applied ==>
                  b2 == Quarantine(b1, if target == "" then UnknownReference else StaleUpdate, p, later))
  {
    assert !FollowsUp(p) ==> IngestBook(b, p, now).1.identifier == p.identifier;
    AppliedStaysFiled(b, p, now, ops);
    hide Run, IngestBook, Resolve, Ordered, IsDuplicate, NewerThanAll, Revisions, FollowsUp;
    var b1 := Run(IngestBook(b, p, now).0, ops);
    IngestAgain(b1, p, later, IngestBook(b, p, now).1.identifier);
  }

  // ----------------------------------------------------------------- convergence

  predicate StartsAlert(op: Op) {
    op.Ingest? ==> !FollowsUp(op.p)
  }

  /** What one step, and a run, delivers. */
  function Message(op: Op): set<Parsed> {
    if op.Ingest? then {op.p} else {}
  }

  function Delivered(ops: seq<Op>): set<Parsed>
    decreases |ops|
  {
    if ops == [] then {} else Message(ops[0]) + Delivered(ops[1..])
  }

  /** No two alerts of one identifier were sent at one instant. */
  ghost predicate DistinctAlerts(ps: set<Parsed>) {
    forall p, q :: p in ps && q in ps && IsAlertOf(p, q.identifier) && !FollowsUp(q) && p.sent == q.sent ==> p == q
  }

  predicate IsAlertOf(p: Parsed, id: string) {
    !FollowsUp(p) && p.identifier == id
  }

  /** A follow-up that refers to the identifier, possibly among others. */
  predicate Names(m: Parsed, id: string) {
    FollowsUp(m) && id != "" && exists k :: 0 <= k < |m.references| && Candidate(m.references[k]) == id
  }

  /** `latest` is the newest message for `id` among `ps`. */
  ghost predicate Newest(ps: set<Parsed>, id: string, latest: Option<Parsed>) {
    match latest
    case None => forall p :: p in ps ==> p.identifier != id
    case Some(n) => n in ps && n.identifier == id && forall p :: p in ps && p.identifier == id ==> p.sent <= n.sent
  }

  lemma AlertKeepsNewest(b: Book, seen: set<Parsed>, op: Op, id: string)
    requires Ordered(b) && StartsAlert(op) && Newest(seen, id, Latest(b, id))
    ensures Newest(seen + Message(op), id, Latest(Do(b, op), id))
  {
    hide InOrder, Append;
    if op.Ingest? {
      var p := op.p;
      IngestShape(b, p, op.now);
      var revs := Revisions(b, p.identifier);
      if IngestBook(b, p, op.now).1.applied {
        assert revs != [] ==> InOrder(revs);
        if revs != [] {
          LastIsNewest(revs, |revs| - 1);
        }
      } else {
        assert p.identifier in b.byID && InOrder(revs);
        if IsDuplicate(revs, p.sent) {
          DuplicateIsStale(revs, p.sent);
        }
        LastIsNewest(revs, |revs| - 1);
      }
    } else {
      assert seen + Message(op) == seen;
    }
  }

  /** After any run of alerts, each identifier's latest revision is the newest one delivered. */
  lemma {:induction false} LatestIsNewest(b: Book, seen: set<Parsed>, ops: seq<Op>, id: string)
    requires Ordered(b) && (forall op :: op in ops ==> StartsAlert(op))
    requires Newest(seen, id, Latest(b, id))
    ensures Newest(seen + Delivered(ops), id, Latest(Run(b, ops), id))
    decreases |ops|
  {
    hide Ordered, Do, Newest, Latest, StartsAlert, Message;
    if ops == [] {
      assert seen + {} == seen;
    } else {
      DoKeepsOrder(b, ops[0], id);
      AlertKeepsNewest(b, seen, ops[0], id);
      assert seen + Delivered(ops) == (seen + Message(ops[0])) + Delivered(ops[1..]);
      LatestIsNewest(Do(b, ops[0]), seen + Message(ops[0]), ops[1..], id);
    }
  }

  // ------------------------------------------- convergence with follow-ups

  /** What the latest revision of `id` can be once `seen` has been delivered: an alert of it,
      or a follow-up that names it and is newer than some alert of it; and no alert of it that
      was delivered is newer. */
  ghost predicate Plausible(seen: set<Parsed>, id: string, latest: Option<Parsed>) {
    match latest
    case None => forall p :: p in seen ==> !IsAlertOf(p, id)
    case Some(n) =>
      && n in seen
      && (forall p :: p in seen && IsAlertOf(p, id) ==> p.sent <= n.sent)
      && exists p :: p in seen && IsAlertOf(p, id) && (p == n || (Names(n, id) && p.sent < n.sent))
  }

  lemma {:induction false} ResolvedIsNamed(known: set<string>, refs: seq<string>)
    requires Resolve(known, refs) != ""
    ensures Resolve(known, refs) in known && exists k :: 0 <= k < |refs| && Candidate(refs[k]) == Resolve(known, refs)
  {
    if Candidate(refs[0]) !in known {
      ResolvedIsNamed(known, refs[1..]);
      var k :| 0 <= k < |refs[1..]| && Candidate(refs[1..][k]) == Resolve(known, refs[1..]);
      assert Candidate(refs[k + 1]) == Resolve(known, refs);
    }
  }

  /** Only an identifier's own alerts and the follow-ups that name it are applied to it. */
  lemma AppliedToNamed(b: Book, p: Parsed, now: int)
    ensures var r := IngestBook(b, p, now).1;
            r.applied ==> IsAlertOf(p, r.identifier) || (Names(p, r.identifier) && r.identifier in b.byID)
  {
    if FollowsUp(p) && Resolve(b.byID.Keys, p.references) != "" {
      ResolvedIsNamed(b.byID.Keys, p.references);
    }
    hide Append, Resolve, IsStale, IsDuplicate;
  }

  lemma RefusedAlertIsOlder(b: Book, p: Parsed, now: int)
    requires Ordered(b) && !FollowsUp(p) && !IngestBook(b, p, now).1.applied
    ensures Latest(b, p.identifier).Some? && p.sent <= Latest(b, p.identifier).value.sent
  {
    var revs := Revisions(b, p.identifier);
    NotStaleIsNewer(revs, p.sent);
    if revs != [] {
      LastIsNewest(revs, |revs| - 1);
    }
    hide Append, InOrder, IsDuplicate, NewerThanAll;
  }

  lemma LatestOfLonger(b: Book, b1: Book, to: string, p: Parsed, id: string)
    requires b1.byID == b.byID[to := Revisions(b, to) + [Stored(p, p.sent)]]
    ensures Latest(b1, id) == if id == to then Some(p) else Latest(b, id)
  {
  }

  lemma LatestIsOlder(b: Book, p: Parsed, id: string)
    requires Ordered(b) && !IsStale(Revisions(b, id), p.sent)
    ensures Latest(b, id).Some? ==> Latest(b, id).value.sent < p.sent
  {
    hide Increasing;
  }

  lemma AppliedIsLatest(b: Book, p: Parsed, now: int, id: string)
    requires Ordered(b)
    ensures var (b1, r) := IngestBook(b, p, now);
            if r.applied && r.identifier == id
            then Latest(b1, id) == Some(p) && (Latest(b, id).Some? ==> Latest(b, id).value.sent < p.sent)
            else Latest(b1, id) == Latest(b, id)
  {
    var (b1, r) := IngestBook(b, p, now);
    IngestShape(b, p, now);
    hide IngestBook, Ordered, IsStale;
    if r.applied {
      hide Latest;
      LatestOfLonger(b, b1, r.identifier, p, id);
      LatestIsOlder(b, p, r.identifier);
    }
  }

  lemma KnownHasLatest(b: Book, id: string)
    requires Ordered(b) && id in b.byID
    ensures Latest(b, id).Some?
  {
  }

  /** What a delivery does to the latest revision of one identifier. */
  lemma LatestAfter(b: Book, p: Parsed, now: int, id: string)
    requires Ordered(b)
    ensures var before, after := Latest(b, id), Latest(IngestBook(b, p, now).0, id);
            && (after == before || after == Some(p))
            && (IsAlertOf(p, id) ==> after.Some? && p.sent <= after.value.sent)
            && (before.Some? ==> after.Some? && before.value.sent <= after.value.sent)
            && (after != before ==> IsAlertOf(p, id) || (Names(p, id) && before.Some? && before.value.sent < p.sent))
  {
    var r := IngestBook(b, p, now).1;
    AppliedIsLatest(b, p, now, id);
    AppliedToNamed(b, p, now);
    if r.applied {
      if r.identifier in b.byID {
        KnownHasLatest(b, r.identifier);
      }
      assert !FollowsUp(p) ==> r.identifier == p.identifier;
    } else if !FollowsUp(p) {
      RefusedAlertIsOlder(b, p, now);
    }
    hide IngestBook, Latest, Names, Ordered;
  }

  lemma StepKeepsPlausible(b: Book, seen: set<Parsed>, op: Op, id: string)
    requires Ordered(b) && Plausible(seen, id, Latest(b, id))
    ensures Plausible(seen + Message(op), id, Latest(Do(b, op), id))
  {
    if op.Ingest? {
      LatestAfter(b, op.p, op.now, id);
      hide IngestBook, Ordered, Latest, Names;
      var was, next := Latest(b, id), Latest(Do(b, op), id);
      if next.Some? && was.Some? {
        var p :| p in seen && IsAlertOf(p, id) && (p == was.value || (Names(was.value, id) && p.sent < was.value.sent));
        assert p in seen + {op.p};
      }
    } else {
      assert seen + Message(op) == seen;
    }
  }

  lemma {:induction false} LatestIsPlausible(b: Book, seen: set<Parsed>, ops: seq<Op>, id: string)
    requires Ordered(b) && Plausible(seen, id, Latest(b, id))
    ensures Plausible(seen + Delivered(ops), id, Latest(Run(b, ops), id))
    decreases |ops|
  {
    hide Ordered, Do, Plausible, Latest, Message;
    if ops == [] {
      assert seen + {} == seen;
    } else {
      DoKeepsOrder(b, ops[0], id);
      StepKeepsPlausible(b, seen, ops[0], id);
      assert seen + Delivered(ops) == (seen + Message(ops[0])) + Delivered(ops[1..]);
      LatestIsPlausible(Do(b, ops[0]), seen + Message(ops[0]), ops[1..], id);
    }
  }

  /** A follow-up that names an identifier, newer than an alert of it and at least as new as
      every other: whether it gets there before or after the alert makes a difference. */
  predicate Tips(ps: set<Parsed>, m: Parsed, p: Parsed) {
    && m in ps && p in ps && !FollowsUp(p) && Names(m, p.identifier) && p.sent < m.sent
    && forall q :: q in ps && IsAlertOf(q, p.identifier) ==> q.sent <= m.sent
  }

  ghost predicate OrderFree(ps: set<Parsed>) {
    forall a, b, id :: Delivered(a) == ps && Delivered(b) == ps ==> Latest(Run(EMPTY, a), id) == Latest(Run(EMPTY, b), id)
  }

  /** Where nothing tips, the latest revision is the newest alert. */
  lemma PlausibleIsNewest(ps: set<Parsed>, id: string, latest: Option<Parsed>)
    requires Plausible(ps, id, latest) && forall m, p :: m in ps && p in ps ==> !Tips(ps, m, p)
    ensures latest.Some? ==> IsAlertOf(latest.value, id)
  {
    if latest.Some? {
      var n := latest.value;
      var p :| p in ps && IsAlertOf(p, id) && (p == n || (Names(n, id) && p.sent < n.sent));
      assert !Tips(ps, n, p);
    }
  }

  lemma NothingTipsIsOrderFree(ps: set<Parsed>, a: seq<Op>, b: seq<Op>, id: string)
    requires DistinctAlerts(ps) && forall m, p :: m in ps && p in ps ==> !Tips(ps, m, p)
    requires Delivered(a) == ps && Delivered(b) == ps
    ensures Latest(Run(EMPTY, a), id) == Latest(Run(EMPTY, b), id)
  {
    hide Run, Delivered, Tips;
    assert {} + ps == ps;
    LatestIsPlausible(EMPTY, {}, a, id);
    LatestIsPlausible(EMPTY, {}, b, id);
    PlausibleIsNewest(ps, id, Latest(Run(EMPTY, a), id));
    PlausibleIsNewest(ps, id, Latest(Run(EMPTY, b), id));
  }

  // ------------------------------------------------------- two telling orders

  lemma {:induction false} Enumerate(ps: set<Parsed>) returns (ops: seq<Op>)
    ensures Delivered(ops) == ps && forall op :: op in ops ==> op.Ingest? && op.p in ps
    decreases |ps|
  {
    if ps == {} {
      ops := [];
    } else {
      var p :| p in ps;
      var rest := Enumerate(ps - {p});
      ops := [Ingest(p, 0)] + rest;
      assert ops[1..] == rest;
    }
  }

  lemma {:induction false} DeliveredConcat(a: seq<Op>, b: seq<Op>)
    ensures Delivered(a + b) == Delivered(a) + Delivered(b)
    decreases |a|
  {
    if a == [] {
      assert a + b == b;
    } else {
      assert (a + b)[0] == a[0] && (a + b)[1..] == a[1..] + b;
      DeliveredConcat(a[1..], b);
    }
  }

  lemma {:induction false} RunConcat(book: Book, a: seq<Op>, b: seq<Op>)
    ensures Run(book, a + b) == Run(Run(book, a), b)
    decreases |a|
  {
    hide Do;
    if a == [] {
      assert a + b == b;
    } else {
      assert (a + b)[0] == a[0] && (a + b)[1..] == a[1..] + b;
      RunConcat(Do(book, a[0]), a[1..], b);
    }
  }

  /** Follow-ups find nothing in a book without alerts. */
  lemma {:induction false} FollowUpsAlone(b: Book, ops: seq<Op>)
    requires b.byID == map[] && Ordered(b) && forall op :: op in ops ==> op.Ingest? && FollowsUp(op.p)
    ensures Run(b, ops).byID == map[] && Ordered(Run(b, ops))
    decreases |ops|
  {
    if ops != [] {
      ResolveFindsNone({}, ops[0].p.references);
      assert b.byID.Keys == {};
      IngestShape(b, ops[0].p, ops[0].now);
      hide IngestBook;
      FollowUpsAlone(Do(b, ops[0]), ops[1..]);
    }
  }

  function Alerts(ps: set<Parsed>): set<Parsed> {
    set p | p in ps && !FollowsUp(p)
  }

  /** All follow-ups first: they are all quarantined, and the alerts decide. */
  lemma FollowUpsFirst(ps: set<Parsed>, id: string) returns (ops: seq<Op>)
    ensures Delivered(ops) == ps && Newest(Alerts(ps), id, Latest(Run(EMPTY, ops), id))
  {
    var alerts := Alerts(ps);
    var followUps := ps - alerts;
    var first := Enumerate(followUps);
    var rest := Enumerate(alerts);
    ops := first + rest;
    DeliveredConcat(first, rest);
    assert followUps + alerts == ps;
    RunConcat(EMPTY, first, rest);
    FollowUpsAlone(EMPTY, first);
    var quiet := Run(EMPTY, first);
    assert {} + alerts == alerts;
    LatestIsNewest(quiet, {}, rest, id);
  }

  lemma ResolveOnlyKnown(id: string, m: Parsed)
    requires Names(m, id)
    ensures Resolve({id}, m.references) == id
  {
    var k :| 0 <= k < |m.references| && Candidate(m.references[k]) == id;
    ResolveOneKnown(id, m.references, k);
  }

  lemma {:induction false} ResolveOneKnown(id: string, refs: seq<string>, k: nat)
    requires k < |refs| && Candidate(refs[k]) == id
    ensures Resolve({id}, refs) == id
    decreases |refs|
  {
    if Candidate(refs[0]) != id {
      ResolveOneKnown(id, refs[1..], k - 1);
    }
  }

  /** The alert and its follow-up first: the follow-up is there for good. */
  lemma FollowUpInTime(ps: set<Parsed>, m: Parsed, p: Parsed) returns (ops: seq<Op>)
    requires Tips(ps, m, p)
    ensures Delivered(ops) == ps
    ensures var latest := Latest(Run(EMPTY, ops), p.identifier);
            latest.Some? && (latest == Some(m) || latest.value.sent > m.sent)
  {
    var id := p.identifier;
    var rest := Enumerate(ps);
    var start := [Ingest(p, 0), Ingest(m, 0)];
    ops := start + rest;
    DeliveredConcat(start, rest);
    assert start[1..] == [Ingest(m, 0)] && [Ingest(m, 0)][1..] == [];
    assert Delivered([Ingest(m, 0)]) == {m} + Delivered([]);
    assert Delivered(start) == {p} + Delivered([Ingest(m, 0)]);
    assert {p, m} + ps == ps;
    AlertThenFollowUp(p, m);
    RunConcat(EMPTY, start, rest);
    LatestOnlyMovesForward(Run(EMPTY, start), rest, id);
  }

  lemma AlertThenFollowUp(p: Parsed, m: Parsed)
    requires !FollowsUp(p) && Names(m, p.identifier) && p.sent < m.sent
    ensures var b := Run(EMPTY, [Ingest(p, 0), Ingest(m, 0)]);
            Ordered(b) && Latest(b, p.identifier) == Some(m)
  {
    var id, b1 := p.identifier, IngestBook(EMPTY, p, 0).0;
    IngestShape(EMPTY, p, 0);
    AppliedIff(EMPTY, p, 0);
    assert Revisions(EMPTY, id) == [];
    assert [] + [Stored(p, p.sent)] == [Stored(p, p.sent)];
    assert b1.byID == map[id := [Stored(p, p.sent)]];
    assert b1.byID.Keys == {id};
    ResolveOnlyKnown(id, m);
    IngestShape(b1, m, 0);
    AppliedIff(b1, m, 0);
    hide IngestBook, Resolve, Ordered;
    var ops := [Ingest(p, 0), Ingest(m, 0)];
    assert ops[1..] == [Ingest(m, 0)] && [Ingest(m, 0)][1..] == [];
    assert Run(b1, [Ingest(m, 0)]) == Run(Do(b1, Ingest(m, 0)), []);
    assert Run(EMPTY, ops) == Run(Do(EMPTY, Ingest(p, 0)), [Ingest(m, 0)]);
    assert Revisions(b1, id) == [Stored(p, p.sent)];
    assert IngestBook(b1, m, 0).0.byID[id] == [Stored(p, p.sent)] + [Stored(m, m.sent)];
  }

  /** The same messages, delivered in any orders, with repeats and with expiries and parse
      failures in between, always end with the same latest revision of every identifier,
      exactly when none of them is a follow-up newer than an alert it names and at least as
      new as all others of that identifier. */
  lemma OrderFreeIff(ps: set<Parsed>)
    requires DistinctAlerts(ps)
    ensures OrderFree(ps) <==> forall m, p :: m in ps && p in ps ==> !Tips(ps, m, p)
  {
    hide Run, Delivered, Tips, DistinctAlerts;
    if forall m, p :: m in ps && p in ps ==> !Tips(ps, m, p) {
      forall a, b, id | Delivered(a) == ps && Delivered(b) == ps
        ensures Latest(Run(EMPTY, a), id) == Latest(Run(EMPTY, b), id)
      {
        NothingTipsIsOrderFree(ps, a, b, id);
      }
    } else {
      var m, p :| m in ps && p in ps && Tips(ps, m, p);
      var a := FollowUpInTime(ps, m, p);
      var b := FollowUpsFirst(ps, p.identifier);
      TipsApart(ps, m, p, Latest(Run(EMPTY, a), p.identifier), Latest(Run(EMPTY, b), p.identifier));
    }
  }

  lemma TipsApart(ps: set<Parsed>, m: Parsed, p: Parsed, x: Option<Parsed>, y: Option<Parsed>)
    requires Tips(ps, m, p) && x.Some? && (x == Some(m) || x.value.sent > m.sent)
    requires Newest(Alerts(ps), p.identifier, y)
    ensures x != y
  {
  }

  /** So with alerts alone the order never matters. */
  lemma DeliveryOrderIrrelevant(a: seq<Op>, b: seq<Op>, id: string)
    requires forall p :: p in Delivered(a) ==> !FollowsUp(p)
    requires Delivered(a) == Delivered(b) && DistinctAlerts(Delivered(a))
    ensures Latest(Run(EMPTY, a), id) == Latest(Run(EMPTY, b), id)
  {
    hide Run, Delivered, DistinctAlerts;
    OrderFreeIff(Delivered(a));
  }

  // ---------------------------------------------------------------------- limits

  lemma FirstAlert(alert: Parsed, now: int)
    requires alert.msgType.Alert?
    ensures IngestBook(EMPTY, alert, now).0 ==
            Book(map[alert.identifier := [Stored(alert, alert.sent)]], map[alert.identifier := Active], [])
    ensures Ordered(IngestBook(EMPTY, alert, now).0)
  {
    IngestShape(EMPTY, alert, now);
    hide Append;
    assert Revisions(EMPTY, alert.identifier) == [];
    assert [] + [Stored(alert, alert.sent)] == [Stored(alert, alert.sent)];
  }

  /** For one alert and its cancellation: one that overtakes the alert is quarantined for good. */
  lemma CancelOrderMatters(alert: Parsed, cancel: Parsed)
    requires alert.msgType.Alert? && cancel.msgType.Cancel? && alert.sent < cancel.sent
    requires alert.identifier != "" && Resolve({alert.identifier}, cancel.references) == alert.identifier
    ensures Do(Do(EMPTY, Ingest(alert, 0)), Ingest(cancel, 0)).state == map[alert.identifier := Cancelled]
    ensures Do(Do(EMPTY, Ingest(cancel, 0)), Ingest(alert, 0)).state == map[alert.identifier := Active]
  {
    hide StableSort, Resolve, IngestBook, Increasing;
    var b1, b2 := Do(EMPTY, Ingest(alert, 0)), Do(EMPTY, Ingest(cancel, 0));
    FirstAlert(alert, 0);
    assert b1.byID.Keys == {alert.identifier};
    AppliedIff(b1, cancel, 0);
    IngestShape(b1, cancel, 0);
    ResolveFindsNone({}, cancel.references);
    assert EMPTY.byID.Keys == {};
    AppliedIff(EMPTY, cancel, 0);
    IngestShape(EMPTY, cancel, 0);
    assert SameAlerts(b2, EMPTY);
    DoKeepsSame(b2, EMPTY, Ingest(alert, 0));
  }

  /** An update whose first reference becomes known only later is applied twice, to two
      identifiers, when it is redelivered. */
  lemma RedeliveredUpdateAppliesAgain(b: Book, p: Parsed, first: string, second: string)
    requires Ordered(b) && p.msgType.Update? && p.references == [first, second]
    requires Candidate(first) == first != "" && Candidate(second) == second != "" && first != second
    requires first !in b.byID && second in b.byID && !IsStale(b.byID[second], p.sent)
    ensures var alert := Parsed(first, Alert, p.sent - 1, p.expires, [], p.sha256);
            var b1 := IngestBook(IngestBook(b, p, 0).0, alert, 0).0;
            && IngestBook(b, p, 0).1 == IngestResult(second, Some(Superseded), true)
            && IngestBook(b1, p, 0).1 == IngestResult(first, Some(Superseded), true)
  {
    hide StableSort, Candidate;
    assert Resolve(b.byID.Keys, p.references) == second by {
      assert p.references[1..] == [second];
    }
    AppendKeepsOrder(b, second, p, Superseded);
    var b0 := IngestBook(b, p, 0).0;
    var alert := Parsed(first, Alert, p.sent - 1, p.expires, [], p.sha256);
    AppendKeepsOrder(b0, first, alert, Active);
    var b1 := IngestBook(b0, alert, 0).0;
    assert Resolve(b1.byID.Keys, p.references) == first;
  }
}
