/** Preview, publication, cancellation and rollback of versioned operational packages. */
module PackageService {
  import opened Wrappers

  /** What the service reads of a package. `wellFormed` stands for the checks of the package
      validator on every other part of it. */
  datatype Package = Package(id: string, version: int, jurisdiction: string, wellFormed: bool, content: string)

  datatype State = Preview | Published | Superseded | Cancelled

  datatype Record = Record(package: Package, state: State, publishedAt: Option<int>, cancelledAt: Option<int>)

  datatype Refusal = Unauthorized | Rejected

  datatype Store = Store(records: map<string, Record>, active: map<string, string>)

  const EMPTY := Store(map[], map[])

  // ------------------------------------------------------------------ operations

  predicate IsSpace(c: char) {
    || '\t' <= c <= '\r' || '\U{001C}' <= c <= ' ' || c == '\U{0085}' || c == '\U{00A0}' || c == '\U{1680}'
    || '\U{2000}' <= c <= '\U{200A}' || c == '\U{2028}' || c == '\U{2029}' || c == '\U{202F}' || c == '\U{205F}' || c == '\U{3000}'
  }

  predicate Blank(s: string) {
    forall k :: 0 <= k < |s| ==> IsSpace(s[k])
  }

  predicate Validates(p: Package, jurisdiction: string) {
    !Blank(p.id) && p.version >= 1 && !Blank(p.jurisdiction) && p.jurisdiction == jurisdiction && p.wellFormed
  }

  datatype Op =
    | DoPreview(package: Package, jurisdiction: string)
    | DoPublish(id: string, jurisdiction: string, authenticated: bool, now: int)
    | DoCancel(id: string, jurisdiction: string, authenticated: bool, now: int)
    | DoRollback(id: string, jurisdiction: string, authenticated: bool, now: int)

  predicate Owns(s: Store, id: string, jurisdiction: string) {
    id in s.records && s.records[id].package.jurisdiction == jurisdiction
  }

  /** Another package is active in the jurisdiction. */
  predicate Displaces(s: Store, id: string, jurisdiction: string) {
    jurisdiction in s.active && s.active[jurisdiction] != "" && s.active[jurisdiction] != id
  }

  /** The reason a call is refused, or None when it goes through. */
  function Refused(s: Store, op: Op): Option<Refusal>
    requires Linked(s)
  {
    match op
    case DoPreview(p, j) =>
      if !Validates(p, j) || (p.id in s.records && s.records[p.id].package.version != p.version) then Some(Rejected) else None
    case DoPublish(id, j, authenticated, _) =>
      if !authenticated then Some(Unauthorized)
      else if id !in s.records then Some(Rejected)
      else if !Owns(s, id, j) then Some(Unauthorized)
      else if Displaces(s, id, j) && s.records[id].package.version <= s.records[s.active[j]].package.version then Some(Rejected)
      else None
    case DoCancel(id, j, authenticated, _) =>
      if !authenticated || !Owns(s, id, j) then Some(Unauthorized) else None
    case DoRollback(id, j, authenticated, _) =>
      if !authenticated || !Owns(s, id, j) then Some(Unauthorized)
      else if !s.records[id].state.Superseded? && !s.records[id].state.Published? then Some(Rejected)
      else None
  }

  /** The records after whatever else is active in the jurisdiction has been superseded. */
  function Retired(s: Store, id: string, jurisdiction: string): map<string, Record>
    requires Linked(s)
  {
    if Displaces(s, id, jurisdiction) then
      var prior := s.records[s.active[jurisdiction]];
      s.records[s.active[jurisdiction] := Record(prior.package, Superseded, prior.publishedAt, None)]
    else s.records
  }

  function Applied(s: Store, op: Op): Store
    requires Linked(s) && Refused(s, op).None?
  {
    match op
    case DoPreview(p, _) => s.(records := s.records[p.id := Record(p, Preview, None, None)])
    case DoCancel(id, j, _, now) =>
      var r := s.records[id];
      Store(s.records[id := Record(r.package, Cancelled, r.publishedAt, Some(now))],
            if j in s.active && s.active[j] == id then s.active - {j} else s.active)
    case _ =>
      Store(Retired(s, op.id, op.jurisdiction)[op.id := Record(s.records[op.id].package, Published, Some(op.now), None)],
            s.active[op.jurisdiction := op.id])
  }

  function Do(s: Store, op: Op): Store
    requires Linked(s)
  {
    if Refused(s, op).None? then Applied(s, op) else s
  }

  function Subject(op: Op): string {
    if op.DoPreview? then op.package.id else op.id
  }

  function Outcome(s: Store, op: Op): Result<Record, Refusal>
    requires Linked(s)
  {
    if Refused(s, op).Some? then Err(Refused(s, op).value) else Ok(Applied(s, op).records[Subject(op)])
  }

  // ------------------------------------------------------------------- invariant

  /** Active identifiers are known, so no lookup of one can fail. */
  ghost predicate Linked(s: Store) {
    forall j :: j in s.active ==> s.active[j] in s.records
  }

  predicate Sound(s: Store, id: string)
    requires id in s.records
  {
    var r := s.records[id];
    && r.package.id == id && Validates(r.package, r.package.jurisdiction)
    && (r.state.Published? ==> r.package.jurisdiction in s.active && s.active[r.package.jurisdiction] == id)
  }

  /** Every published record is the active one of its own jurisdiction. */
  ghost predicate Inv(s: Store) {
    Linked(s) && forall id :: id in s.records ==> Sound(s, id)
  }

  class OperationalPackageService {
    var records: map<string, Record>
    var activeByJurisdiction: map<string, string>

    ghost function View(): Store
      reads this
    {
      Store(records, activeByJurisdiction)
    }

    constructor ()
      ensures View() == EMPTY && Inv(View())
    {
      records, activeByJurisdiction := map[], map[];
    }

    method PreviewPackage(package: Package, jurisdiction: string) returns (r: Result<Record, Refusal>)
      requires Inv(View())
      modifies this
      ensures View() == Do(old(View()), DoPreview(package, jurisdiction)) && Inv(View())
      ensures r == Outcome(old(View()), DoPreview(package, jurisdiction))
    {
      StepKeepsInv(View(), DoPreview(package, jurisdiction));
      if !Validates(package, jurisdiction) {
        return Err(Rejected);
      }
      var record := Record(package, Preview, None, None);
      if package.id in records && records[package.id].package.version != package.version {
        return Err(Rejected);
      }
      records := records[package.id := record];
      r := Ok(record);
    }

    method Publish(id: string, jurisdiction: string, authenticated: bool, now: int) returns (r: Result<Record, Refusal>)
      requires Inv(View())
      modifies this
      ensures View() == Do(old(View()), DoPublish(id, jurisdiction, authenticated, now)) && Inv(View())
      ensures r == Outcome(old(View()), DoPublish(id, jurisdiction, authenticated, now))
    {
      StepKeepsInv(View(), DoPublish(id, jurisdiction, authenticated, now));
      if !authenticated {
        return Err(Unauthorized);
      }
      if id !in records {
        return Err(Rejected);
      }
      var record := records[id];
      if record.package.jurisdiction != jurisdiction {
        return Err(Unauthorized);
      }
      if jurisdiction in activeByJurisdiction {
        var priorId := activeByJurisdiction[jurisdiction];
        if priorId != "" && priorId != id {
          var prior := records[priorId];
          if record.package.version <= prior.package.version {
            return Err(Rejected);
          }
          records := records[priorId := Record(prior.package, Superseded, prior.publishedAt, None)];
        }
      }
      var published := Record(record.package, Published, Some(now), None);
      records := records[id := published];
      activeByJurisdiction := activeByJurisdiction[jurisdiction := id];
      r := Ok(published);
    }

    /** The active record of the jurisdiction. */
    method Active(jurisdiction: string) returns (r: Option<Record>)
      requires Inv(View())
      ensures r == if jurisdiction in activeByJurisdiction then Some(records[activeByJurisdiction[jurisdiction]]) else None
      ensures forall id :: id in records && records[id].state.Published? && records[id].package.jurisdiction == jurisdiction ==>
                             r == Some(records[id])
    {
      r := None;
      if jurisdiction in activeByJurisdiction {
        var id := activeByJurisdiction[jurisdiction];
        assert !Blank(records[id].package.id) by { assert Sound(View(), id); }
        if id != "" && id in records {
          r := Some(records[id]);
        }
      }
      assert forall id :: id in records ==> Sound(View(), id);
    }

    method Cancel(id: string, jurisdiction: string, authenticated: bool, now: int) returns (r: Result<Record, Refusal>)
      requires Inv(View())
      modifies this
      ensures View() == Do(old(View()), DoCancel(id, jurisdiction, authenticated, now)) && Inv(View())
      ensures r == Outcome(old(View()), DoCancel(id, jurisdiction, authenticated, now))
    {
      StepKeepsInv(View(), DoCancel(id, jurisdiction, authenticated, now));
      if !authenticated || id !in records || records[id].package.jurisdiction != jurisdiction {
        return Err(Unauthorized);
      }
      var record := records[id];
      var cancelled := Record(record.package, Cancelled, record.publishedAt, Some(now));
      records := records[id := cancelled];
      if jurisdiction in activeByJurisdiction && activeByJurisdiction[jurisdiction] == id {
        activeByJurisdiction := activeByJurisdiction - {jurisdiction};
      }
      r := Ok(cancelled);
    }

    method Rollback(id: string, jurisdiction: string, authenticated: bool, now: int) returns (r: Result<Record, Refusal>)
      requires Inv(View())
      modifies this
      ensures View() == Do(old(View()), DoRollback(id, jurisdiction, authenticated, now)) && Inv(View())
      ensures r == Outcome(old(View()), DoRollback(id, jurisdiction, authenticated, now))
    {
      StepKeepsInv(View(), DoRollback(id, jurisdiction, authenticated, now));
      if !authenticated {
        return Err(Unauthorized);
      }
      if id !in records || records[id].package.jurisdiction != jurisdiction {
        return Err(Unauthorized);
      }
      var record := records[id];
      if !record.state.Superseded? && !record.state.Published? {
        return Err(Rejected);
      }
      var restored := Record(record.package, Published, Some(now), None);
      if jurisdiction in activeByJurisdiction {
        var currentId := activeByJurisdiction[jurisdiction];
        if currentId != "" && currentId != id {
          var current := records[currentId];
          records := records[currentId := Record(current.package, Superseded, current.publishedAt, None)];
        }
      }
      records := records[id := restored];
      activeByJurisdiction := activeByJurisdiction[jurisdiction := id];
      r := Ok(restored);
    }
  }

  // ------------------------------------------------------------------------ runs

  lemma StepKeepsInv(s: Store, op: Op)
    requires Inv(s)
    ensures Inv(Do(s, op))
  {
    hide Blank;
    if Refused(s, op).None? {
      var t := Applied(s, op);
      forall id | id in t.records
        ensures Sound(t, id)
      {
        assert id in s.records ==> Sound(s, id);
        NamesAreNotBlank(s, op);
      }
    }
  }

  lemma NamesAreNotBlank(s: Store, op: Op)
    requires Inv(s)
    ensures "" !in s.records && (op.DoPreview? && Refused(s, op).None? ==> op.package.id != "")
    ensures forall j :: j in s.active ==> s.active[j] != ""
  {
  }

  function Run(s: Store, ops: seq<Op>): Store
    requires Inv(s)
    decreases |ops|
  {
    if ops == [] then s else StepKeepsInv(s, ops[0]); Run(Do(s, ops[0]), ops[1..])
  }

  lemma {:induction false} RunKeepsInv(s: Store, ops: seq<Op>)
    requires Inv(s)
    ensures Inv(Run(s, ops))
    decreases |ops|
  {
    if ops != [] {
      StepKeepsInv(s, ops[0]);
      hide Inv, Do;
      RunKeepsInv(Do(s, ops[0]), ops[1..]);
    }
  }

  /** After any calls, at most one package is published in a jurisdiction, and it is the
      active one there. */
  lemma AtMostOnePublished(ops: seq<Op>, a: string, b: string)
    ensures var s := Run(EMPTY, ops);
            a in s.records && b in s.records && s.records[a].state.Published? && s.records[b].state.Published?
            && s.records[a].package.jurisdiction == s.records[b].package.jurisdiction ==>
              a == b && s.records[a].package.jurisdiction in s.active && s.active[s.records[a].package.jurisdiction] == a
  {
    hide Run;
    RunKeepsInv(EMPTY, ops);
    var s := Run(EMPTY, ops);
    assert a in s.records && b in s.records ==> Sound(s, a) && Sound(s, b);
  }

  /** An identifier, once previewed, keeps its version for ever and is never forgotten. */
  lemma {:induction false} VersionIsFixed(s: Store, ops: seq<Op>, id: string)
    requires Inv(s) && id in s.records
    ensures id in Run(s, ops).records && Run(s, ops).records[id].package.version == s.records[id].package.version
    decreases |ops|
  {
    if ops != [] {
      StepKeepsInv(s, ops[0]);
      StepKeepsVersion(s, ops[0], id);
      hide Inv, Do;
      VersionIsFixed(Do(s, ops[0]), ops[1..], id);
    }
  }

  lemma StepKeepsVersion(s: Store, op: Op, id: string)
    requires Inv(s) && id in s.records
    ensures id in Do(s, op).records && Do(s, op).records[id].package.version == s.records[id].package.version
  {
  }

  /** A publication displaces another package only with a strictly higher version, and the
      displaced one becomes SUPERSEDED; nothing else changes. Neither the state of the package
      nor an earlier cancellation matters. */
  lemma PublishIff(s: Store, id: string, j: string, authenticated: bool, now: int)
    requires Inv(s)
    ensures var op := DoPublish(id, j, authenticated, now);
            && (Refused(s, op).None? <==>
                  && authenticated && Owns(s, id, j)
                  && (j in s.active ==>
                        s.active[j] == id || s.records[id].package.version > s.records[s.active[j]].package.version))
            && (Refused(s, op).None? ==>
                  && Do(s, op).active == s.active[j := id]
                  && Do(s, op).records[id] == Record(s.records[id].package, Published, Some(now), None)
                  && forall other :: other in s.records && other != id ==>
                                       Do(s, op).records[other] ==
                                       if j in s.active && s.active[j] == other then s.records[other].(state := Superseded, cancelledAt := None)
                                       else s.records[other])
  {
  }

  /** A rollback goes through exactly for a package of the jurisdiction that is or has been
      published and was neither cancelled nor previewed again since; version order does not
      matter, and whatever else was active is superseded. */
  lemma RollbackIff(s: Store, id: string, j: string, authenticated: bool, now: int)
    requires Inv(s)
    ensures var op := DoRollback(id, j, authenticated, now);
            && (Refused(s, op).None? <==>
                  authenticated && Owns(s, id, j) && (s.records[id].state.Published? || s.records[id].state.Superseded?))
            && (Refused(s, op).None? ==>
                  && Do(s, op).active == s.active[j := id]
                  && Do(s, op).records[id] == Record(s.records[id].package, Published, Some(now), None)
                  && forall other :: other in s.records && other != id ==>
                                       Do(s, op).records[other] ==
                                       if j in s.active && s.active[j] == other then s.records[other].(state := Superseded, cancelledAt := None)
                                       else s.records[other])
  {
    hide Sound, Blank;
    NamesAreNotBlank(s, DoRollback(id, j, authenticated, now));
  }

  /** A cancellation takes the package out of service, keeps when it was published, and leaves
      every other package and jurisdiction alone; a cancelled package is never rolled back to. */
  lemma CancelTakesOut(s: Store, id: string, j: string, now: int)
    requires Inv(s) && Owns(s, id, j)
    ensures var t := Do(s, DoCancel(id, j, true, now));
            && t.records == s.records[id := Record(s.records[id].package, Cancelled, s.records[id].publishedAt, Some(now))]
            && (forall k :: k in t.active <==> k in s.active && !(k == j && s.active[k] == id))
            && (forall k :: k in t.active ==> t.active[k] == s.active[k])
            && Inv(t) && Refused(t, DoRollback(id, j, true, now)) == Some(Rejected)
            && (s.records[id].state.Published? ==>
                  forall other :: other in t.records && t.records[other].package.jurisdiction == j ==> !t.records[other].state.Published?)
  {
    StepKeepsInv(s, DoCancel(id, j, true, now));
    assert forall other :: other in s.records ==> Sound(s, other);
  }

  /** The characters that Python strips, one by one. */
  const SPACES := "\t\n\U{000B}\U{000C}\r\U{001C}\U{001D}\U{001E}\U{001F} \U{0085}\U{00A0}\U{1680}\U{2000}\U{2001}"
    + "\U{2002}\U{2003}\U{2004}\U{2005}\U{2006}\U{2007}\U{2008}\U{2009}\U{200A}\U{2028}\U{2029}\U{202F}\U{205F}\U{3000}"

  lemma SpacesAre(c: char)
    ensures IsSpace(c) <==> c in SPACES
  {
  }

  /** A preview goes through exactly for a valid package of the jurisdiction whose identifier is
      new or has that version; it files the package as previewed, whatever it was before. */
  lemma PreviewIff(s: Store, p: Package, j: string)
    requires Inv(s)
    ensures var op := DoPreview(p, j);
            && (Refused(s, op).None? <==>
                  && p.version >= 1 && p.jurisdiction == j && p.wellFormed
                  && (exists k :: 0 <= k < |p.id| && !IsSpace(p.id[k])) && (exists k :: 0 <= k < |j| && !IsSpace(j[k]))
                  && (p.id in s.records ==> s.records[p.id].package.version == p.version))
            && (Refused(s, op).None? ==>
                  Do(s, op) == Store(s.records[p.id := Record(p, Preview, None, None)], s.active))
  {
    hide IsSpace;
  }

  /** The answer of a call: a refused one changes nothing and is a question of authority exactly
      when the operator is not authenticated or the package is another jurisdiction's; one that
      goes through returns the record that is filed from then on. */
  lemma AnswersAre(s: Store, op: Op)
    requires Inv(s)
    ensures Outcome(s, op).Err? ==> Do(s, op) == s
    ensures Outcome(s, op) == Err(Unauthorized) <==>
              && !op.DoPreview?
              && (!op.authenticated || (op.id !in s.records && !op.DoPublish?)
                  || (op.id in s.records && s.records[op.id].package.jurisdiction != op.jurisdiction))
    ensures Outcome(s, op).Ok? ==>
              && Subject(op) in Do(s, op).records && Outcome(s, op) == Ok(Do(s, op).records[Subject(op)])
              && Outcome(s, op).value ==
                 match op
                 case DoPreview(p, _) => Record(p, Preview, None, None)
                 case DoCancel(id, _, _, now) => Record(s.records[id].package, Cancelled, s.records[id].publishedAt, Some(now))
                 case _ => Record(s.records[op.id].package, Published, Some(op.now), None)
  {
    hide Blank, Sound;
  }

  predicate PreviewOrPublish(op: Op) {
    op.DoPreview? || op.DoPublish?
  }

  lemma StepRaisesActive(s: Store, op: Op, j: string)
    requires Inv(s) && PreviewOrPublish(op) && j in s.active
    ensures var t := Do(s, op);
            && j in t.active && t.active[j] in t.records
            && t.records[t.active[j]].package.version >= s.records[s.active[j]].package.version
            && (t.active[j] != s.active[j] ==>
                  t.records[t.active[j]].package.version > s.records[s.active[j]].package.version)
  {
  }

  /** Without cancellations and rollbacks, a jurisdiction's active version never drops. */
  lemma {:induction false} ActiveVersionNeverDrops(s: Store, ops: seq<Op>, j: string)
    requires Inv(s) && j in s.active && forall op :: op in ops ==> PreviewOrPublish(op)
    ensures var t := Run(s, ops);
            && j in t.active && t.active[j] in t.records
            && t.records[t.active[j]].package.version >= s.records[s.active[j]].package.version
    decreases |ops|
  {
    if ops != [] {
      StepKeepsInv(s, ops[0]);
      StepRaisesActive(s, ops[0], j);
      hide Do, Inv;
      ActiveVersionNeverDrops(Do(s, ops[0]), ops[1..], j);
    }
  }

  lemma StepSupersedes(s: Store, op: Op, id: string)
    requires Inv(s) && PreviewOrPublish(op) && id in s.records && !s.records[id].state.Superseded?
    ensures var t := Do(s, op);
            id in t.records && t.records[id].package.version == s.records[id].package.version
            && (t.records[id].state.Superseded? ==>
                  && op.DoPublish? && op.jurisdiction in s.active && s.active[op.jurisdiction] == id
                  && op.jurisdiction in t.active && t.active[op.jurisdiction] in t.records
                  && t.records[t.active[op.jurisdiction]].package.version > s.records[id].package.version)
  {
    StepKeepsVersion(s, op, id);
  }

  /** Call `k` of the run is a publication in the jurisdiction whose active pointer named the
      package, and supersedes it. */
  ghost predicate SupersededAt(s: Store, ops: seq<Op>, k: nat, id: string)
    requires Inv(s) && k < |ops|
  {
    RunKeepsInv(s, ops[..k]);
    var mid, op := Run(s, ops[..k]), ops[k];
    && op.DoPublish? && op.jurisdiction in mid.active && mid.active[op.jurisdiction] == id
    && id in mid.records && !mid.records[id].state.Superseded?
    && id in Do(mid, op).records && Do(mid, op).records[id].state.Superseded?
  }

  /** After the run a strictly higher version is active where call `k` superseded the package. */
  ghost predicate HigherAt(t: Store, ops: seq<Op>, k: nat, id: string)
    requires k < |ops| && id in t.records
  {
    && ops[k].DoPublish? && ops[k].jurisdiction in t.active && t.active[ops[k].jurisdiction] in t.records
    && t.records[t.active[ops[k].jurisdiction]].package.version > t.records[id].package.version
  }

  lemma SupersededLater(s: Store, ops: seq<Op>, k: nat, id: string)
    requires Inv(s) && ops != [] && k < |ops[1..]| && Inv(Do(s, ops[0])) && SupersededAt(Do(s, ops[0]), ops[1..], k, id)
    ensures SupersededAt(s, ops, k + 1, id)
  {
    hide Do, Sound;
    assert ops[..k + 1][1..] == ops[1..][..k] && ops[..k + 1][0] == ops[0];
    assert Run(s, ops[..k + 1]) == Run(Do(s, ops[0]), ops[1..][..k]);
  }

  lemma SupersededFirst(s: Store, ops: seq<Op>, id: string)
    requires Inv(s) && ops != [] && PreviewOrPublish(ops[0]) && id in s.records && !s.records[id].state.Superseded?
    requires id in Do(s, ops[0]).records && Do(s, ops[0]).records[id].state.Superseded?
    ensures SupersededAt(s, ops, 0, id)
  {
    StepSupersedes(s, ops[0], id);
    hide Do, Inv;
    assert ops[..0] == [] && Run(s, ops[..0]) == s;
  }

  /** Whatever previews and publications have displaced a package: the jurisdiction whose
      active pointer named it when it was superseded now has a strictly higher version. */
  lemma {:induction false} DisplacedByHigher(s: Store, ops: seq<Op>, id: string)
    requires Inv(s) && (forall op :: op in ops ==> PreviewOrPublish(op))
    requires id in s.records && !s.records[id].state.Superseded?
    ensures var t := Run(s, ops);
            && id in t.records
            && (t.records[id].state.Superseded? ==>
                  exists k: nat :: k < |ops| && SupersededAt(s, ops, k, id) && HigherAt(t, ops, k, id))
    decreases |ops|
  {
    if ops != [] {
      var mid, t := Do(s, ops[0]), Run(s, ops);
      StepKeepsInv(s, ops[0]);
      StepSupersedes(s, ops[0], id);
      VersionIsFixed(s, ops, id);
      hide Inv, Do, SupersededAt;
      if mid.records[id].state.Superseded? {
        SupersededFirst(s, ops, id);
        ActiveVersionNeverDrops(mid, ops[1..], ops[0].jurisdiction);
        assert HigherAt(t, ops, 0, id);
      } else {
        DisplacedByHigher(mid, ops[1..], id);
        if t.records[id].state.Superseded? {
          var k: nat :| k < |ops[1..]| && SupersededAt(mid, ops[1..], k, id) && HigherAt(t, ops[1..], k, id);
          SupersededLater(s, ops, k, id);
          assert ops[1..][k] == ops[k + 1];
          assert HigherAt(t, ops, k + 1, id);
        }
      }
    }
  }

  // -------------------------------------------------------------------- converse

  /** What an active pointer is meant to say. */
  predicate Serves(s: Store, j: string)
    requires j in s.active
  {
    s.active[j] in s.records && s.records[s.active[j]].state.Published? && s.records[s.active[j]].package.jurisdiction == j
  }

  ghost predicate AllServe(s: Store) {
    forall j :: j in s.active ==> Serves(s, j)
  }

  predicate RepreviewsActive(s: Store, op: Op)
    requires Linked(s)
  {
    op.DoPreview? && Refused(s, op).None? && op.package.id in s.active.Values
  }

  /** The converse of the invariant survives exactly the calls that do not preview an active
      package again. */
  lemma ServesIff(s: Store, op: Op)
    requires Inv(s) && AllServe(s)
    ensures AllServe(Do(s, op)) <==> !RepreviewsActive(s, op)
  {
    hide Blank;
    NamesAreNotBlank(s, op);
    var t := Do(s, op);
    if RepreviewsActive(s, op) {
      var j :| j in s.active && s.active[j] == op.package.id;
      assert !Serves(t, j);
    } else {
      forall j | j in t.active
        ensures Serves(t, j)
      {
        assert j in s.active ==> Serves(s, j);
        assert op.DoPreview? || op.jurisdiction in s.active ==> op.DoPreview? || Serves(s, op.jurisdiction);
        assert op.DoPreview? && Refused(s, op).None? && j in s.active ==> s.active[j] in s.active.Values;
      }
    }
  }

  ghost predicate NeverRepreviews(s: Store, ops: seq<Op>)
    requires Inv(s)
    decreases |ops|
  {
    ops != [] ==> !RepreviewsActive(s, ops[0]) && (StepKeepsInv(s, ops[0]); NeverRepreviews(Do(s, ops[0]), ops[1..]))
  }

  ghost predicate ServesThroughout(s: Store, ops: seq<Op>)
    requires Inv(s)
    decreases |ops|
  {
    AllServe(s) && (ops != [] ==> (StepKeepsInv(s, ops[0]); ServesThroughout(Do(s, ops[0]), ops[1..])))
  }

  lemma {:induction false} ServesThroughoutIff(s: Store, ops: seq<Op>)
    requires Inv(s) && AllServe(s)
    ensures ServesThroughout(s, ops) <==> NeverRepreviews(s, ops)
    decreases |ops|
  {
    hide Do, Sound, AllServe, RepreviewsActive;
    if ops != [] {
      StepKeepsInv(s, ops[0]);
      ServesIff(s, ops[0]);
      if !RepreviewsActive(s, ops[0]) {
        ServesThroughoutIff(Do(s, ops[0]), ops[1..]);
      } else {
        assert !AllServe(Do(s, ops[0]));
      }
    }
  }

  /** Previewing the active package again takes it out of service with no cancellation, and
      then it cannot even be rolled back to. */
  lemma RepreviewUnpublishes(s: Store, p: Package, now: int)
    requires Inv(s) && p.id in s.records && s.records[p.id] == Record(p, Published, Some(now), None)
    ensures var t := Do(s, DoPreview(p, p.jurisdiction));
            && t.active[p.jurisdiction] == p.id && t.records[p.id].state.Preview?
            && Refused(t, DoRollback(p.id, p.jurisdiction, true, now)) == Some(Rejected)
            && forall id :: id in t.records && t.records[id].package.jurisdiction == p.jurisdiction ==> !t.records[id].state.Published?
  {
  }
}
