/** The scoped rules for lists of ids in a model proposal (evidence, SHOW_CHOICES and
    FIT_FEATURES), and the schema that narrows generation to the same context. */
module ScopedChoice {
  import opened Wrappers

  const MAX_SHOW_CHOICES := 3
  const MAX_EVIDENCE := 16

  datatype Place = Place(placeId: string, placeKind: string, jurisdiction: string)

  /** The context, with the keys of the maps whose values these rules do not read. */
  datatype ScopedContext = ScopedContext(
    jurisdiction: string,
    knownPlaces: map<string, Place>,
    knownSafeZones: set<string>,
    knownRedZones: set<string>,
    knownRoutes: set<string>,
    knownFacilities: set<string>,
    eligible: seq<string>)

  datatype Action = ShowChoices(targetIds: seq<string>) | FitFeatures(targetIds: seq<string>)

  predicate IsKnownAny(sc: ScopedContext, id: string) {
    id in sc.knownPlaces || id in sc.knownSafeZones || id in sc.knownRedZones || id in sc.knownRoutes || id in sc.knownFacilities
  }

  // -------------------------------------------------------------- choice order

  /** `at` places each target, in order, at an equal entry of `xs`. */
  predicate Embeds(ts: seq<string>, xs: seq<string>, at: seq<nat>) {
    && |at| == |ts|
    && (forall k :: 0 <= k < |ts| ==> at[k] < |xs| && xs[at[k]] == ts[k])
    && (forall k, m :: 0 <= k < m < |ts| ==> at[k] < at[m])
  }

  ghost predicate IsSubsequence(ts: seq<string>, xs: seq<string>) {
    exists at: seq<nat> :: Embeds(ts, xs, at)
  }

  predicate Greedy(ts: seq<string>, xs: seq<string>)
    decreases |xs|
  {
    ts == [] || (xs != [] && if xs[0] == ts[0] then Greedy(ts[1..], xs[1..]) else Greedy(ts, xs[1..]))
  }

  lemma {:induction false} GreedyEmbeds(ts: seq<string>, xs: seq<string>) returns (at: seq<nat>)
    requires Greedy(ts, xs)
    ensures Embeds(ts, xs, at)
    decreases |xs|
  {
    if ts == [] {
      at := [];
    } else {
      var first := xs[0] == ts[0];
      var tail := GreedyEmbeds(if first then ts[1..] else ts, xs[1..]);
      var shifted := seq(|tail|, k requires 0 <= k < |tail| => tail[k] + 1);
      at := if first then [0] + shifted else shifted;
    }
  }

  lemma {:induction false} EmbeddingIsFound(ts: seq<string>, xs: seq<string>, at: seq<nat>)
    requires Embeds(ts, xs, at)
    ensures Greedy(ts, xs)
    decreases |xs|
  {
    if ts != [] {
      assert at[0] < |xs|;
      if xs[0] == ts[0] {
        var tail := seq(|at| - 1, k requires 0 <= k < |at| - 1 => at[k + 1] - 1);
        forall k | 0 <= k < |at| - 1 ensures at[k + 1] >= 1 && xs[1..][at[k + 1] - 1] == ts[1..][k] {
          assert at[0] < at[k + 1];
        }
        EmbeddingIsFound(ts[1..], xs[1..], tail);
      } else {
        forall k | 0 <= k < |at| ensures at[k] >= 1 {
          assert at[0] != 0;
          assert k > 0 ==> at[0] < at[k];
        }
        EmbeddingIsFound(ts, xs[1..], seq(|at|, k requires 0 <= k < |at| => at[k] - 1));
      }
    }
  }

  /** The greedy matcher decides the declarative question. */
  lemma GreedyIsSubsequence(ts: seq<string>, xs: seq<string>)
    ensures Greedy(ts, xs) <==> IsSubsequence(ts, xs)
  {
    if Greedy(ts, xs) {
      var at := GreedyEmbeds(ts, xs);
    }
    if at: seq<nat> :| Embeds(ts, xs, at) {
      EmbeddingIsFound(ts, xs, at);
    }
  }

  lemma {:induction false} GreedyNeedsRoom(ts: seq<string>, xs: seq<string>)
    requires Greedy(ts, xs)
    ensures |ts| <= |xs|
    decreases |xs|
  {
    if ts != [] {
      GreedyNeedsRoom(if xs[0] == ts[0] then ts[1..] else ts, xs[1..]);
    }
  }

  datatype OrderError = NoEligible | TooManyChoices | NotInOrder

  method EnforceChoiceOrder(targetIds: seq<string>, eligible: seq<string>) returns (r: Option<OrderError>)
    ensures r.None? <==> eligible != [] && IsSubsequence(targetIds, eligible)
    ensures r == Some(NoEligible) <==> eligible == []
    ensures r == Some(TooManyChoices) <==> eligible != [] && |targetIds| > |eligible|
  {
    GreedyIsSubsequence(targetIds, eligible);
    if |eligible| == 0 {
      return Some(NoEligible);
    }
    if |targetIds| > |eligible| {
      if Greedy(targetIds, eligible) {
        GreedyNeedsRoom(targetIds, eligible);
      }
      return Some(TooManyChoices);
    }
    var eIdx := 0;
    for i := 0 to |targetIds|
      invariant eIdx <= |eligible|
      invariant Greedy(targetIds, eligible) == Greedy(targetIds[i..], eligible[eIdx..])
    {
      var id := targetIds[i];
      while eIdx < |eligible| && eligible[eIdx] != id
        invariant eIdx <= |eligible|
        invariant Greedy(targetIds, eligible) == Greedy(targetIds[i..], eligible[eIdx..])
      {
        eIdx := eIdx + 1;
      }
      if eIdx >= |eligible| {
        return Some(NotInOrder);
      }
      eIdx := eIdx + 1;
    }
    r := None;
  }

  // ------------------------------------------------------------- the list rules

  /** A choice that the cross-kind check lets through. */
  predicate GoodChoice(sc: ScopedContext, id: string) {
    && id !in sc.knownRoutes
    && (id in sc.knownPlaces ==>
          var p := sc.knownPlaces[id];
          p.placeKind == "FACILITY" && p.jurisdiction == sc.jurisdiction && p.placeId == id)
    && id in sc.knownFacilities
  }

  /** Known ids and good choices, as sets. */
  lemma KnownAndGood(sc: ScopedContext, id: string)
    ensures IsKnownAny(sc, id) <==>
              id in sc.knownPlaces.Keys + sc.knownSafeZones + sc.knownRedZones + sc.knownRoutes + sc.knownFacilities
    ensures GoodChoice(sc, id) <==>
              && id in sc.knownFacilities - sc.knownRoutes
              && (id in sc.knownPlaces.Keys ==> sc.knownPlaces[id] == Place(id, "FACILITY", sc.jurisdiction))
  {
  }

  predicate Distinct(ids: seq<string>) {
    forall k, m :: 0 <= k < m < |ids| ==> ids[k] != ids[m]
  }

  ghost predicate PassesShowChoices(sc: ScopedContext, ids: seq<string>) {
    && 1 <= |ids| <= MAX_SHOW_CHOICES
    && (forall id :: id in ids ==> GoodChoice(sc, id))
    && sc.eligible != [] && IsSubsequence(ids, sc.eligible)
  }

  ghost predicate PassesFitFeatures(sc: ScopedContext, ids: seq<string>) {
    1 <= |ids| <= MAX_SHOW_CHOICES && Distinct(ids) && forall id :: id in ids ==> id != "" && IsKnownAny(sc, id)
  }

  predicate PassesEvidence(sc: ScopedContext, ids: seq<string>) {
    forall id :: id in ids ==> IsKnownAny(sc, id)
  }

  ghost predicate PassesAction(sc: ScopedContext, a: Action) {
    match a
    case ShowChoices(ids) => PassesShowChoices(sc, ids)
    case FitFeatures(ids) => PassesFitFeatures(sc, ids)
  }

  datatype Reason =
    | UnknownEvidence(id: string) | RouteAsFacility(id: string) | PlaceAsFacility(id: string) | UnknownFacility(id: string)
    | EmptyList | ListTooLong | Order(error: OrderError) | EmptyTarget | DuplicateTarget(id: string) | UnknownTarget(id: string)

  /** Why a choice is not let through: a route, a place entry that does not fit, or no facility. */
  predicate WrongKind(sc: ScopedContext, id: string, reason: Reason) {
    match reason
    case RouteAsFacility(x) => x == id && id in sc.knownRoutes
    case PlaceAsFacility(x) =>
      && x == id && id !in sc.knownRoutes && id in sc.knownPlaces
      && sc.knownPlaces[id] != Place(id, "FACILITY", sc.jurisdiction)
    case UnknownFacility(x) =>
      && x == id && id !in sc.knownRoutes && id !in sc.knownFacilities
      && (id in sc.knownPlaces ==> sc.knownPlaces[id] == Place(id, "FACILITY", sc.jurisdiction))
    case _ => false
  }

  /** The reason given is that of the first choice that is not let through. */
  method CheckChoiceKinds(sc: ScopedContext, ids: seq<string>) returns (r: Option<Reason>)
    ensures r.None? <==> forall id :: id in ids ==> GoodChoice(sc, id)
    ensures r.Some? ==> !r.value.UnknownEvidence?
    ensures r.Some? ==>
              exists i :: 0 <= i < |ids| && WrongKind(sc, ids[i], r.value) && forall k :: 0 <= k < i ==> GoodChoice(sc, ids[k])
  {
    for i := 0 to |ids|
      invariant forall k :: 0 <= k < i ==> GoodChoice(sc, ids[k])
    {
      var id := ids[i];
      assert id in ids;
      if id in sc.knownRoutes {
        assert WrongKind(sc, ids[i], RouteAsFacility(id));
        return Some(RouteAsFacility(id));
      }
      if id in sc.knownPlaces {
        var place := sc.knownPlaces[id];
        if place.placeKind != "FACILITY" || place.jurisdiction != sc.jurisdiction || place.placeId != id {
          assert WrongKind(sc, ids[i], PlaceAsFacility(id));
          return Some(PlaceAsFacility(id));
        }
      }
      if id !in sc.knownFacilities {
        assert WrongKind(sc, ids[i], UnknownFacility(id));
        return Some(UnknownFacility(id));
      }
    }
    r := None;
  }

  /** Why the target at `i` is not let through: it is empty, stands before, or is not known. */
  predicate WrongTarget(sc: ScopedContext, ids: seq<string>, i: nat, reason: Reason)
    requires i < |ids|
  {
    match reason
    case EmptyTarget => ids[i] == ""
    case DuplicateTarget(x) => x == ids[i] != "" && ids[i] in ids[..i]
    case UnknownTarget(x) => x == ids[i] != "" && ids[i] !in ids[..i] && !IsKnownAny(sc, ids[i])
    case _ => false
  }

  /** The reason given is the length, or that of the first target that is not let through. */
  method CheckFitFeatures(sc: ScopedContext, ids: seq<string>) returns (r: Option<Reason>)
    ensures r.None? <==> PassesFitFeatures(sc, ids)
    ensures r.Some? ==> !r.value.UnknownEvidence?
    ensures r == Some(EmptyList) <==> ids == []
    ensures r == Some(ListTooLong) <==> |ids| > 3
    ensures r.Some? && 1 <= |ids| <= 3 ==>
              exists i :: 0 <= i < |ids| && WrongTarget(sc, ids, i, r.value)
                          && Distinct(ids[..i]) && forall k :: 0 <= k < i ==> ids[k] != "" && IsKnownAny(sc, ids[k])
  {
    if |ids| == 0 {
      return Some(EmptyList);
    }
    if |ids| > MAX_SHOW_CHOICES {
      return Some(ListTooLong);
    }
    var seen: set<string> := {};
    for i := 0 to |ids|
      invariant seen == set k | 0 <= k < i :: ids[k]
      invariant Distinct(ids[..i]) && forall k :: 0 <= k < i ==> ids[k] != "" && IsKnownAny(sc, ids[k])
    {
      var id := ids[i];
      assert id in ids;
      if id == "" {
        assert WrongTarget(sc, ids, i, EmptyTarget);
        return Some(EmptyTarget);
      }
      if id in seen {
        assert WrongTarget(sc, ids, i, DuplicateTarget(id));
        return Some(DuplicateTarget(id));
      }
      seen := seen + {id};
      if !IsKnownAny(sc, id) {
        assert WrongTarget(sc, ids, i, UnknownTarget(id));
        return Some(UnknownTarget(id));
      }
    }
    assert ids[..|ids|] == ids;
    r := None;
  }

  /** The rules in the order the validator applies them: evidence, then the kinds of every
      choice, then each action. */
  method EnforceLists(sc: ScopedContext, evidenceIds: seq<string>, actions: seq<Action>) returns (r: Option<Reason>)
    ensures r.None? <==> PassesEvidence(sc, evidenceIds) && forall a :: a in actions ==> PassesAction(sc, a)
    ensures r.Some? && r.value.UnknownEvidence? <==> !PassesEvidence(sc, evidenceIds)
    ensures r.Some? && r.value.UnknownEvidence? ==>
              exists i :: 0 <= i < |evidenceIds| && evidenceIds[i] == r.value.id && !IsKnownAny(sc, evidenceIds[i])
                          && forall k :: 0 <= k < i ==> IsKnownAny(sc, evidenceIds[k])
  {
    for i := 0 to |evidenceIds|
      invariant forall k :: 0 <= k < i ==> IsKnownAny(sc, evidenceIds[k])
    {
      if !IsKnownAny(sc, evidenceIds[i]) {
        return Some(UnknownEvidence(evidenceIds[i]));
      }
    }
    for i := 0 to |actions|
      invariant forall k :: 0 <= k < i && actions[k].ShowChoices? ==> forall id :: id in actions[k].targetIds ==> GoodChoice(sc, id)
    {
      if actions[i].ShowChoices? {
        r := CheckChoiceKinds(sc, actions[i].targetIds);
        if r.Some? {
          assert !PassesAction(sc, actions[i]);
          return;
        }
      }
    }
    for i := 0 to |actions|
      invariant forall k :: 0 <= k < i ==> PassesAction(sc, actions[k])
    {
      match actions[i] {
        case ShowChoices(ids) =>
          if |ids| == 0 {
            assert !PassesAction(sc, actions[i]);
            return Some(EmptyList);
          }
          if |ids| > MAX_SHOW_CHOICES {
            assert !PassesAction(sc, actions[i]);
            return Some(ListTooLong);
          }
          var err := EnforceChoiceOrder(ids, sc.eligible);
          if err.Some? {
            assert !PassesAction(sc, actions[i]);
            return Some(Order(err.value));
          }
        case FitFeatures(ids) =>
          r := CheckFitFeatures(sc, ids);
          if r.Some? {
            assert !PassesAction(sc, actions[i]);
            return;
          }
      }
    }
    r := None;
  }

  // -------------------------------------------------------- the narrowed schema

  datatype EvidenceRule = NoEvidence | EvidenceIn(known: set<string>)
  datatype ShowRule = ShowForbidden | ShowConst(choices: seq<string>) | ShowOneOf(prefixes: seq<seq<string>>)
  datatype FitRule = FitForbidden | FitIn(known: set<string>)

  datatype Schema = Schema(evidence: EvidenceRule, show: ShowRule, fit: FitRule)

  predicate AllowsEvidence(s: Schema, ids: seq<string>) {
    match s.evidence
    case NoEvidence => ids == []
    case EvidenceIn(known) => |ids| <= MAX_EVIDENCE && forall id :: id in ids ==> id in known
  }

  predicate AllowsShow(s: Schema, ids: seq<string>) {
    match s.show
    case ShowForbidden => false
    case ShowConst(choices) => ids == choices
    case ShowOneOf(prefixes) => ids in prefixes
  }

  predicate AllowsFit(s: Schema, ids: seq<string>) {
    match s.fit
    case FitForbidden => false
    case FitIn(known) => 1 <= |ids| <= 3 && Distinct(ids) && forall id :: id in ids ==> id in known
  }

  method AddAll(ids: set<string>, more: set<string>) returns (r: set<string>)
    ensures r == ids + more
  {
    r := ids;
    var todo := more;
    while todo != {}
      invariant todo <= more && r == ids + (more - todo)
      decreases todo
    {
      var id :| id in todo;
      r := r + {id};
      todo := todo - {id};
    }
  }

  method ShowChoicesRule(choices: seq<string>) returns (show: ShowRule)
    ensures forall evidence, fit, ids :: AllowsShow(Schema(evidence, show, fit), ids) <==>
              ids <= choices && 1 <= |ids| <= 3 && (|choices| <= 3 ==> |ids| == |choices|)
  {
    if |choices| == 0 {
      return ShowForbidden;
    }
    if |choices| <= 3 {
      return ShowConst(choices);
    }
    var prefixes: seq<seq<string>> := [];
    for k := 1 to 4
      invariant |prefixes| == k - 1 && forall m :: 1 <= m < k ==> prefixes[m - 1] == choices[..m]
    {
      prefixes := prefixes + [choices[..k]];
    }
    forall ids | ids <= choices && 1 <= |ids| <= 3 ensures ids in prefixes {
      assert prefixes[|ids| - 1] == choices[..|ids|] == ids;
    }
    forall ids | ids in prefixes ensures ids <= choices && 1 <= |ids| <= 3 {
      var m :| 0 <= m < |prefixes| && prefixes[m] == ids;
      assert prefixes[m] == choices[..m + 1];
    }
    show := ShowOneOf(prefixes);
  }

  /** The lists a schema narrowed to the context allows. */
  ghost predicate Narrowed(sc: ScopedContext, s: Schema) {
    && (forall ids :: AllowsEvidence(s, ids) <==> |ids| <= MAX_EVIDENCE && PassesEvidence(sc, ids))
    && (forall ids :: AllowsFit(s, ids) <==> 1 <= |ids| <= 3 && Distinct(ids) && PassesEvidence(sc, ids))
    && (forall ids :: AllowsShow(s, ids) <==>
          ids <= sc.eligible && 1 <= |ids| <= 3 && (|sc.eligible| <= 3 ==> |ids| == |sc.eligible|))
  }

  /** The narrowing: ids from the five maps, choices from the eligible list. */
  method ScopedSchema(sc: ScopedContext) returns (s: Schema)
    ensures Narrowed(sc, s)
  {
    var known: set<string> := {};
    known := AddAll(known, sc.knownPlaces.Keys);
    known := AddAll(known, sc.knownSafeZones);
    known := AddAll(known, sc.knownRedZones);
    known := AddAll(known, sc.knownFacilities);
    known := AddAll(known, sc.knownRoutes);
    assert forall id :: id in known <==> IsKnownAny(sc, id);
    var evidence := if known == {} then NoEvidence else EvidenceIn(known);
    var choices: seq<string> := [];
    for i := 0 to |sc.eligible|
      invariant choices == sc.eligible[..i]
    {
      choices := choices + [sc.eligible[i]];
    }
    var show := ShowChoicesRule(choices);
    var fit := if known == {} then FitForbidden else FitIn(known);
    s := Schema(evidence, show, fit);
    forall ids: seq<string> | |ids| > 0 ensures ids[0] in ids {
    }
  }

  lemma PrefixIsSubsequence(ids: seq<string>, xs: seq<string>)
    requires ids <= xs
    ensures IsSubsequence(ids, xs)
  {
    var at: seq<nat> := seq(|ids|, k => k);
    assert Embeds(ids, xs, at);
  }

  /** The first choices, at most three: those that can be generated. */
  function FirstChoices(sc: ScopedContext): seq<string> {
    if |sc.eligible| <= 3 then sc.eligible else sc.eligible[..3]
  }

  /** Every evidence list the schema allows passes; every FIT_FEATURES list does exactly
      when no known id is empty; every SHOW_CHOICES list does exactly when each of the
      first choices is a known facility, no route, and agrees with any place entry. */
  lemma GeneratedListsPass(sc: ScopedContext, s: Schema)
    requires Narrowed(sc, s)
    ensures forall ids :: AllowsEvidence(s, ids) ==> PassesEvidence(sc, ids)
    ensures !IsKnownAny(sc, "") <==> forall ids :: AllowsFit(s, ids) ==> PassesFitFeatures(sc, ids)
    ensures (forall id :: id in FirstChoices(sc) ==> GoodChoice(sc, id))
       <==> forall ids :: AllowsShow(s, ids) ==> PassesShowChoices(sc, ids)
  {
    hide AllowsEvidence, AllowsFit, AllowsShow, GoodChoice;
    if IsKnownAny(sc, "") {
      assert "" in [""] && PassesEvidence(sc, [""]) && Distinct([""]);
      assert AllowsFit(s, [""]) && !PassesFitFeatures(sc, [""]);
    } else {
      forall ids | AllowsFit(s, ids) ensures PassesFitFeatures(sc, ids) {
      }
    }
    if forall id :: id in FirstChoices(sc) ==> GoodChoice(sc, id) {
      forall ids | AllowsShow(s, ids) ensures PassesShowChoices(sc, ids) {
        PrefixIsSubsequence(ids, sc.eligible);
        assert forall id :: id in ids ==> id in FirstChoices(sc);
      }
    } else {
      var id :| id in FirstChoices(sc) && !GoodChoice(sc, id);
      assert AllowsShow(s, FirstChoices(sc));
      assert !PassesShowChoices(sc, FirstChoices(sc));
    }
  }

  /** The validator itself is wider than the schema: it lets any subsequence through. */
  lemma ValidatorAllowsSkipping(sc: ScopedContext, s: Schema)
    requires Narrowed(sc, s) && |sc.eligible| >= 2 && sc.eligible[0] != sc.eligible[1] && GoodChoice(sc, sc.eligible[1])
    ensures PassesShowChoices(sc, [sc.eligible[1]]) && !AllowsShow(s, [sc.eligible[1]])
  {
    assert Embeds([sc.eligible[1]], sc.eligible, [1]);
  }
}
