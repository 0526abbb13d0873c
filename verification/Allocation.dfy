/** The in-memory ledger of facility capacity: idempotent assignment and arrival. */
module AllocationLedger {
  import opened Wrappers

  datatype AssignmentState = Reserved | Arrived

  datatype Allocation = Allocation(id: string, facilityId: string, partySize: int, state: AssignmentState,
                                   alertId: string, sessionId: string, key: string)

  datatype Fingerprint = Fingerprint(alertId: string, sessionId: string, partySize: int, key: string)

  datatype Room = Room(total: int, remaining: int, open: bool)

  datatype Ledger = Ledger(rooms: map<string, Room>, assignments: map<string, Allocation>,
                           arrivals: map<string, Allocation>, fingerprints: map<string, Fingerprint>)

  const EMPTY := Ledger(map[], map[], map[], map[])

  datatype Refusal = OutsideBounds | BadPartySize | PayloadConflict | Unavailable | UnknownAssignment

  datatype Op =
    | Register(facilityId: string, room: Room)
    | Assign(id: string, partySize: int, alertId: string, sessionId: string, key: Option<string>)
    | Confirm(id: string, yes: bool, key: Option<string>)

  // ------------------------------------------------------------------ operations

  /** An absent or empty idempotency key stands for the assignment's own identifier. */
  function KeyOr(key: Option<string>, id: string): string {
    if key.Some? && key.value != "" then key.value else id
  }

  function Payload(op: Op): Fingerprint
    requires op.Assign?
  {
    Fingerprint(op.alertId, op.sessionId, op.partySize, KeyOr(op.key, op.id))
  }

  predicate Fits(rooms: map<string, Room>, f: string, n: int) {
    f in rooms && rooms[f].open && rooms[f].remaining >= n
  }

  function FirstFit(rooms: map<string, Room>, order: seq<string>, n: int): Option<string> {
    if order == [] then None
    else if Fits(rooms, order[0], n) then Some(order[0])
    else FirstFit(rooms, order[1..], n)
  }

  function Reservation(op: Op, f: string): Allocation
    requires op.Assign?
  {
    Allocation(op.id, f, op.partySize, Reserved, op.alertId, op.sessionId, KeyOr(op.key, op.id))
  }

  function Reserve(l: Ledger, op: Op, f: string): Ledger
    requires op.Assign? && f in l.rooms
  {
    Ledger(l.rooms[f := l.rooms[f].(remaining := l.rooms[f].remaining - op.partySize)],
           l.assignments[op.id := Reservation(op, f)], l.arrivals, l.fingerprints[op.id := Payload(op)])
  }

  function ArrivalOf(a: Allocation, key: Option<string>): Allocation {
    a.(state := Arrived, key := KeyOr(key, a.id))
  }

  /** Whether a call is refused, and why. */
  function Refused(l: Ledger, order: seq<string>, op: Op): Option<Refusal>
    requires l.assignments.Keys == l.fingerprints.Keys
  {
    match op
    case Register(_, room) => if room.remaining < 0 || room.remaining > room.total then Some(OutsideBounds) else None
    case Assign(id, n, _, _, _) =>
      if n < 1 || n > 50 then Some(BadPartySize)
      else if id in l.assignments then if l.fingerprints[id] != Payload(op) then Some(PayloadConflict) else None
      else if FirstFit(l.rooms, order, n).None? then Some(Unavailable)
      else None
    case Confirm(id, _, _) => if id !in l.assignments then Some(UnknownAssignment) else None
  }

  function Do(l: Ledger, order: seq<string>, op: Op): Ledger
    requires l.assignments.Keys == l.fingerprints.Keys
  {
    if Refused(l, order, op).Some? then l
    else match op
         case Register(f, room) => l.(rooms := l.rooms[f := room])
         case Assign(id, n, _, _, _) =>
           if id in l.assignments then l
           else FirstFitIff(l.rooms, order, n); Reserve(l, op, FirstFit(l.rooms, order, n).value)
         case Confirm(id, yes, key) =>
           if !yes || id in l.arrivals then l
           else l.(arrivals := l.arrivals[id := ArrivalOf(l.assignments[id], key)])
  }

  /** The allocation an accepted assignment or confirmation returns. */
  function Answer(l: Ledger, order: seq<string>, op: Op): Result<Allocation, Refusal>
    requires Inv(l) && !op.Register?
  {
    if Refused(l, order, op).Some? then Err(Refused(l, order, op).value)
    else
      var t := Do(l, order, op);
      if op.Confirm? && op.yes then Ok(t.arrivals[op.id]) else Ok(t.assignments[op.id])
  }

  lemma NoneLeft(rooms: map<string, Room>, order: seq<string>, n: int)
    ensures FirstFit(rooms, order[|order|..], n) == None
  {
  }

  lemma AssignCases(l: Ledger, order: seq<string>, op: Op)
    requires Inv(l) && op.Assign?
    ensures op.partySize < 1 || op.partySize > 50 ==> Do(l, order, op) == l && Answer(l, order, op) == Err(BadPartySize)
    ensures 1 <= op.partySize <= 50 && op.id in l.assignments ==>
              && Do(l, order, op) == l
              && Answer(l, order, op) == if l.fingerprints[op.id] == Payload(op) then Ok(l.assignments[op.id]) else Err(PayloadConflict)
    ensures 1 <= op.partySize <= 50 && op.id !in l.assignments ==>
              match FirstFit(l.rooms, order, op.partySize)
              case None => Do(l, order, op) == l && Answer(l, order, op) == Err(Unavailable)
              case Some(f) => f in l.rooms && Do(l, order, op) == Reserve(l, op, f) && Answer(l, order, op) == Ok(Reservation(op, f))
  {
    hide FirstFit;
    FirstFitIff(l.rooms, order, op.partySize);
  }

  lemma ConfirmCases(l: Ledger, order: seq<string>, op: Op)
    requires Inv(l) && op.Confirm?
    ensures op.id !in l.assignments ==> Do(l, order, op) == l && Answer(l, order, op) == Err(UnknownAssignment)
    ensures op.id in l.assignments && !op.yes ==> Do(l, order, op) == l && Answer(l, order, op) == Ok(l.assignments[op.id])
    ensures op.id in l.assignments && op.yes && op.id in l.arrivals ==>
              Do(l, order, op) == l && Answer(l, order, op) == Ok(l.arrivals[op.id])
    ensures op.id in l.assignments && op.yes && op.id !in l.arrivals ==>
              var arrived := ArrivalOf(l.assignments[op.id], op.key);
              Do(l, order, op) == l.(arrivals := l.arrivals[op.id := arrived]) && Answer(l, order, op) == Ok(arrived)
  {
  }

  /** The facility taken is the first one in policy order that is registered, open and large
      enough; there is none exactly when no facility of the policy is. */
  lemma {:induction false} FirstFitIff(rooms: map<string, Room>, order: seq<string>, n: int)
    ensures match FirstFit(rooms, order, n)
            case None => forall k :: 0 <= k < |order| ==> !Fits(rooms, order[k], n)
            case Some(f) => Fits(rooms, f, n) && exists k :: 0 <= k < |order| && order[k] == f
                                                         && forall j :: 0 <= j < k ==> !Fits(rooms, order[j], n)
  {
    if order != [] && !Fits(rooms, order[0], n) {
      FirstFitIff(rooms, order[1..], n);
      match FirstFit(rooms, order, n)
      case None =>
        forall k | 0 <= k < |order| ensures !Fits(rooms, order[k], n) {
          assert k > 0 ==> order[k] == order[1..][k - 1];
        }
      case Some(f) =>
        var k :| 0 <= k < |order[1..]| && order[1..][k] == f && forall j :: 0 <= j < k ==> !Fits(rooms, order[1..][j], n);
        forall j | 0 <= j < k + 1 ensures !Fits(rooms, order[j], n) {
          assert j > 0 ==> order[j] == order[1..][j - 1];
        }
        assert order[k + 1] == f;
    }
  }

  lemma FirstFitSkips(rooms: map<string, Room>, order: seq<string>, n: int, i: nat)
    requires i < |order|
    ensures FirstFit(rooms, order[i..], n) == if Fits(rooms, order[i], n) then Some(order[i]) else FirstFit(rooms, order[i + 1..], n)
  {
  }

  /** A facility is registered, in place of any of that name, exactly when what it offers is
      not negative and within its total. */
  lemma RegisteredIff(l: Ledger, order: seq<string>, f: string, room: Room)
    requires Inv(l)
    ensures var op := Register(f, room);
            if 0 <= room.remaining <= room.total
            then Refused(l, order, op) == None && Do(l, order, op) == l.(rooms := l.rooms[f := room])
            else Refused(l, order, op) == Some(OutsideBounds) && Do(l, order, op) == l
  {
  }

  /** What a new assignment and a first arrival return: a reservation at the first fit and the
      same reservation as arrived, each under the key that was given, or else under the
      assignment's own identifier. */
  lemma NewAnswers(l: Ledger, order: seq<string>, op: Op)
    requires Inv(l) && !op.Register? && Answer(l, order, op).Ok?
    ensures var a, given := Answer(l, order, op).value, if op.key.Some? && op.key.value != "" then op.key.value else op.id;
            && a.id == op.id
            && (op.Assign? && op.id !in l.assignments ==>
                  && FirstFit(l.rooms, order, op.partySize) == Some(a.facilityId)
                  && a == Allocation(op.id, a.facilityId, op.partySize, Reserved, op.alertId, op.sessionId, given))
            && (op.Confirm? && op.yes && op.id !in l.arrivals ==>
                  a == l.assignments[op.id].(state := Arrived, key := given))
            && (op.Confirm? && !op.yes ==> a == l.assignments[op.id])
            && (op.Confirm? && op.yes ==> a.state == Arrived)
  {
    hide FirstFit;
    FirstFitIff(l.rooms, order, if op.Assign? then op.partySize else 0);
    assert op.id in l.assignments ==> Recorded(l, op.id);
    assert op.id in l.arrivals ==> ArrivedAs(l, op.id);
  }

  // -------------------------------------------------------------------- invariant

  predicate RoomInBounds(r: Room) {
    0 <= r.remaining <= r.total
  }

  predicate Recorded(l: Ledger, id: string)
    requires id in l.assignments && id in l.fingerprints
  {
    var a := l.assignments[id];
    && a.id == id && a.state.Reserved? && 1 <= a.partySize <= 50 && a.facilityId in l.rooms
    && l.fingerprints[id] == Fingerprint(a.alertId, a.sessionId, a.partySize, a.key)
  }

  ghost predicate ArrivedAs(l: Ledger, id: string)
    requires id in l.arrivals
  {
    id in l.assignments && exists key :: l.arrivals[id] == ArrivalOf(l.assignments[id], key)
  }

  ghost predicate Inv(l: Ledger) {
    && l.assignments.Keys == l.fingerprints.Keys
    && (forall f :: f in l.rooms ==> RoomInBounds(l.rooms[f]))
    && (forall id :: id in l.assignments ==> Recorded(l, id))
    && forall id :: id in l.arrivals ==> ArrivedAs(l, id)
  }

  // ---------------------------------------------------------------------- objects

  class FacilityCapacity {
    const facilityId: string
    const totalCapacity: int
    var remaining: int
    var open: bool

    constructor (facilityId: string, totalCapacity: int, remaining: int, open: bool)
      ensures this.facilityId == facilityId && AsRoom() == Room(totalCapacity, remaining, open)
    {
      this.facilityId, this.totalCapacity, this.remaining, this.open := facilityId, totalCapacity, remaining, open;
    }

    ghost function AsRoom(): Room
      reads this
    {
      Room(totalCapacity, remaining, open)
    }
  }

  class InMemoryAllocationService {
    const policyOrder: seq<string>
    var facilities: map<string, FacilityCapacity>
    var assignments: map<string, Allocation>
    var arrivals: map<string, Allocation>
    var fingerprints: map<string, Fingerprint>

    /** Facilities are filed under their own names, so no two entries share an object. */
    ghost predicate Valid()
      reads this
    {
      forall f :: f in facilities ==> facilities[f].facilityId == f
    }

    ghost function Rooms(): map<string, Room>
      reads this, facilities.Values
    {
      map f | f in facilities :: facilities[f].AsRoom()
    }

    ghost function View(): Ledger
      reads this, facilities.Values
    {
      Ledger(Rooms(), assignments, arrivals, fingerprints)
    }

    constructor (policyOrder: seq<string>)
      ensures this.policyOrder == policyOrder && Valid() && View() == EMPTY && Inv(View())
    {
      this.policyOrder := policyOrder;
      facilities, assignments, arrivals, fingerprints := map[], map[], map[], map[];
    }

    method RegisterFacility(facility: FacilityCapacity) returns (refusal: Option<Refusal>)
      requires Valid() && Inv(View())
      modifies this`facilities
      ensures Valid() && Inv(View())
      ensures var op := Register(facility.facilityId, old(facility.AsRoom()));
              View() == Do(old(View()), policyOrder, op) && refusal == Refused(old(View()), policyOrder, op)
    {
      StepKeepsInv(View(), policyOrder, Register(facility.facilityId, facility.AsRoom()));
      if facility.remaining < 0 || facility.remaining > facility.totalCapacity {
        return Some(OutsideBounds);
      }
      ghost var was := Rooms();
      facilities := facilities[facility.facilityId := facility];
      assert Rooms() == was[facility.facilityId := facility.AsRoom()];
      refusal := None;
    }

    /** The part of an assignment that follows the search. */
    method TakePlaces(f: string, op: Op) returns (allocation: Allocation)
      requires Valid() && op.Assign? && f in facilities
      modifies this`assignments, this`fingerprints, {facilities[f]}
      ensures Valid() && View() == Reserve(old(View()), op, f) && allocation == Reservation(op, f)
    {
      ghost var was := Rooms();
      var facility := facilities[f];
      facility.remaining := facility.remaining - op.partySize;
      assert Rooms() == was[f := Room(was[f].total, was[f].remaining - op.partySize, was[f].open)];
      allocation := Allocation(op.id, f, op.partySize, Reserved, op.alertId, op.sessionId, KeyOr(op.key, op.id));
      assignments := assignments[op.id := allocation];
      fingerprints := fingerprints[op.id := Fingerprint(op.alertId, op.sessionId, op.partySize, KeyOr(op.key, op.id))];
    }

    method AssignParty(id: string, partySize: int, alertId: string, sessionId: string, key: Option<string>)
      returns (r: Result<Allocation, Refusal>)
      requires Valid() && Inv(View())
      modifies this`assignments, this`fingerprints, facilities.Values
      ensures Valid() && Inv(View())
      ensures var op := Assign(id, partySize, alertId, sessionId, key);
              View() == Do(old(View()), policyOrder, op) && r == Answer(old(View()), policyOrder, op)
    {
      var op := Assign(id, partySize, alertId, sessionId, key);
      ghost var l := View();
      StepKeepsInv(l, policyOrder, op);
      AssignCases(l, policyOrder, op);
      hide Inv, Do, Answer, Refused, FirstFit, Reserve;
      if partySize < 1 || partySize > 50 {
        return Err(BadPartySize);
      }
      if id in assignments {
        var fingerprint := Fingerprint(alertId, sessionId, partySize, KeyOr(key, id));
        if fingerprints[id] != fingerprint {
          return Err(PayloadConflict);
        }
        return Ok(assignments[id]);
      }
      for i := 0 to |policyOrder|
        invariant View() == l
        invariant FirstFit(l.rooms, policyOrder, partySize) == FirstFit(l.rooms, policyOrder[i..], partySize)
      {
        var f := policyOrder[i];
        assert f in facilities ==> l.rooms[f] == facilities[f].AsRoom();
        FirstFitSkips(l.rooms, policyOrder, partySize, i);
        if f !in facilities || !facilities[f].open || facilities[f].remaining < partySize {
          continue;
        }
        assert FirstFit(l.rooms, policyOrder, partySize) == Some(f);
        var allocation := TakePlaces(f, op);
        return Ok(allocation);
      }
      NoneLeft(l.rooms, policyOrder, partySize);
      r := Err(Unavailable);
    }

    method ConfirmArrival(id: string, yes: bool, key: Option<string>) returns (r: Result<Allocation, Refusal>)
      requires Valid() && Inv(View())
      modifies this`arrivals
      ensures Valid() && Inv(View())
      ensures var op := Confirm(id, yes, key);
              View() == Do(old(View()), policyOrder, op) && r == Answer(old(View()), policyOrder, op)
    {
      ghost var l, op := View(), Confirm(id, yes, key);
      StepKeepsInv(l, policyOrder, op);
      ConfirmCases(l, policyOrder, op);
      hide Inv, Do, Answer, Refused;
      if id !in assignments {
        return Err(UnknownAssignment);
      }
      var assignment := assignments[id];
      if !yes {
        return Ok(assignment);
      }
      if id in arrivals {
        return Ok(arrivals[id]);
      }
      var arrived := Allocation(assignment.id, assignment.facilityId, assignment.partySize, Arrived,
                                assignment.alertId, assignment.sessionId, KeyOr(key, assignment.id));
      arrivals := arrivals[id := arrived];
      assert Rooms() == l.rooms;
      r := Ok(arrived);
    }
  }

  // ------------------------------------------------------------------------- runs

  lemma StepKeepsInv(l: Ledger, order: seq<string>, op: Op)
    requires Inv(l)
    ensures Inv(Do(l, order, op))
  {
    var t := Do(l, order, op);
    if op.Assign? && Refused(l, order, op).None? && op.id !in l.assignments {
      FirstFitIff(l.rooms, order, op.partySize);
      var f := FirstFit(l.rooms, order, op.partySize).value;
      assert Fits(l.rooms, f, op.partySize) && RoomInBounds(l.rooms[f]);
    }
    forall id | id in t.assignments
      ensures Recorded(t, id)
    {
      assert id in l.assignments ==> Recorded(l, id);
    }
    forall id | id in t.arrivals
      ensures ArrivedAs(t, id)
    {
      assert id in l.arrivals ==> ArrivedAs(l, id);
    }
  }

  function Run(l: Ledger, order: seq<string>, ops: seq<Op>): Ledger
    requires Inv(l)
    decreases |ops|
  {
    if ops == [] then l else StepKeepsInv(l, order, ops[0]); Run(Do(l, order, ops[0]), order, ops[1..])
  }

  /** Nobody's place is ever lost or changed: reservations, arrivals and facilities are only
      ever added, and no remaining capacity leaves its bounds. */
  lemma {:induction false} NothingIsUndone(l: Ledger, order: seq<string>, ops: seq<Op>)
    requires Inv(l)
    ensures var t := Run(l, order, ops);
            && Inv(t) && l.rooms.Keys <= t.rooms.Keys
            && (forall id :: id in l.assignments ==> id in t.assignments && t.assignments[id] == l.assignments[id])
            && (forall id :: id in l.fingerprints ==> id in t.fingerprints && t.fingerprints[id] == l.fingerprints[id])
            && forall id :: id in l.arrivals ==> id in t.arrivals && t.arrivals[id] == l.arrivals[id]
    decreases |ops|
  {
    if ops != [] {
      StepKeepsInv(l, order, ops[0]);
      StepUndoesNothing(l, order, ops[0]);
      hide Do, Inv;
      NothingIsUndone(Do(l, order, ops[0]), order, ops[1..]);
    }
  }

  lemma StepUndoesNothing(l: Ledger, order: seq<string>, op: Op)
    requires Inv(l)
    ensures var t := Do(l, order, op);
            && l.rooms.Keys <= t.rooms.Keys
            && (forall id :: id in l.assignments ==> id in t.assignments && t.assignments[id] == l.assignments[id])
            && (forall id :: id in l.fingerprints ==> id in t.fingerprints && t.fingerprints[id] == l.fingerprints[id])
            && forall id :: id in l.arrivals ==> id in t.arrivals && t.arrivals[id] == l.arrivals[id]
  {
  }

  /** What an accepted assignment leaves behind. */
  lemma AcceptedIsFiled(l: Ledger, order: seq<string>, op: Op)
    requires Inv(l) && op.Assign? && Answer(l, order, op).Ok?
    ensures var t := Do(l, order, op);
            && op.id in t.assignments && op.id in t.fingerprints
            && t.assignments[op.id] == Answer(l, order, op).value && t.fingerprints[op.id] == Payload(op)
  {
    hide FirstFit, Recorded, ArrivedAs;
  }

  /** Once assigned, an identifier answers for ever: the same payload gets the same allocation
      and any other payload is a conflict, and neither touches the ledger. */
  lemma ReplaysChangeNothing(l: Ledger, order: seq<string>, first: Op, ops: seq<Op>, again: Op)
    requires Inv(l) && first.Assign? && Answer(l, order, first).Ok?
    requires again.Assign? && again.id == first.id && 1 <= again.partySize <= 50
    ensures Inv(Do(l, order, first))
    ensures var t := Run(Do(l, order, first), order, ops);
            && Inv(t) && Do(t, order, again) == t
            && Answer(t, order, again) ==
               if Payload(again) == Payload(first) then Ok(Answer(l, order, first).value) else Err(PayloadConflict)
  {
    StepKeepsInv(l, order, first);
    AcceptedIsFiled(l, order, first);
    hide Run, Do, Answer, Inv, Payload, FirstFit;
    NothingIsUndone(Do(l, order, first), order, ops);
    AssignCases(Run(Do(l, order, first), order, ops), order, again);
  }

  /** A confirmation changes no reservation and no capacity, and the first arrival of an
      assignment is the one reported for ever. */
  lemma ArrivalIsFinal(l: Ledger, order: seq<string>, first: Op, ops: seq<Op>, again: Op)
    requires Inv(l) && first.Confirm? && first.yes && Answer(l, order, first).Ok?
    requires again.Confirm? && again.id == first.id
    ensures Do(l, order, first).rooms == l.rooms && Do(l, order, first).assignments == l.assignments
    ensures Inv(Do(l, order, first))
    ensures var t := Run(Do(l, order, first), order, ops);
            && Inv(t) && Do(t, order, again) == t
            && Answer(t, order, again) == Ok(if again.yes then Answer(l, order, first).value else l.assignments[first.id])
  {
    hide Run;
    StepKeepsInv(l, order, first);
    NothingIsUndone(Do(l, order, first), order, ops);
  }

  /** A new assignment takes exactly its party size from the first facility that can hold it,
      and from nowhere else; it is refused exactly when none of the policy can. */
  lemma AssignTakesFirstFit(l: Ledger, order: seq<string>, op: Op)
    requires Inv(l) && op.Assign? && op.id !in l.assignments && 1 <= op.partySize <= 50
    ensures Answer(l, order, op) == Err(Unavailable) <==> forall k :: 0 <= k < |order| ==> !Fits(l.rooms, order[k], op.partySize)
    ensures Answer(l, order, op) != Err(Unavailable) ==>
              && Answer(l, order, op).Ok?
              && var a, t := Answer(l, order, op).value, Do(l, order, op);
                 && a == Reservation(op, a.facilityId) && Fits(l.rooms, a.facilityId, op.partySize)
                 && (exists k :: 0 <= k < |order| && order[k] == a.facilityId
                                 && forall j :: 0 <= j < k ==> !Fits(l.rooms, order[j], op.partySize))
                 && t.rooms.Keys == l.rooms.Keys
                 && forall f :: f in l.rooms ==>
                                  t.rooms[f] == l.rooms[f].(remaining := l.rooms[f].remaining - if f == a.facilityId then op.partySize else 0)
  {
    FirstFitIff(l.rooms, order, op.partySize);
  }

  // ----------------------------------------------------------------- conservation

  function Share(a: Allocation, f: string): int {
    if a.facilityId == f then a.partySize else 0
  }

  /** The party sizes assigned to the facility, summed. */
  ghost function Assigned(m: map<string, Allocation>, f: string): int
    decreases |m|
  {
    if m == map[] then 0
    else
      var id :| id in m;
      Share(m[id], f) + Assigned(m - {id}, f)
  }

  lemma {:induction false} AssignedTakesOut(m: map<string, Allocation>, f: string, id: string)
    requires id in m
    ensures Assigned(m, f) == Share(m[id], f) + Assigned(m - {id}, f)
    decreases |m|
  {
    var first :| first in m && Assigned(m, f) == Share(m[first], f) + Assigned(m - {first}, f);
    if first != id {
      AssignedTakesOut(m - {first}, f, id);
      AssignedTakesOut(m - {id}, f, first);
      assert m - {first} - {id} == m - {id} - {first};
    }
  }

  lemma AssignedPutsIn(m: map<string, Allocation>, f: string, id: string, a: Allocation)
    requires id !in m
    ensures Assigned(m[id := a], f) == Assigned(m, f) + Share(a, f)
  {
    AssignedTakesOut(m[id := a], f, id);
    assert m[id := a] - {id} == m;
  }

  predicate AnyAssigned(m: map<string, Allocation>, f: string) {
    exists id :: id in m && m[id].facilityId == f
  }

  /** Nothing is summed exactly when nobody is assigned, as a party has at least one member. */
  lemma {:induction false} NoneAssignedIff(m: map<string, Allocation>, f: string)
    requires forall id :: id in m ==> m[id].partySize >= 1
    ensures Assigned(m, f) >= 0 && (Assigned(m, f) == 0 <==> !AnyAssigned(m, f))
    decreases |m|
  {
    if m != map[] {
      var id :| id in m;
      var rest := m - {id};
      AssignedTakesOut(m, f, id);
      NoneAssignedIff(rest, f);
      assert AnyAssigned(m, f) <==> m[id].facilityId == f || AnyAssigned(rest, f) by {
        if AnyAssigned(m, f) && m[id].facilityId != f {
          var other :| other in m && m[other].facilityId == f;
          assert other in rest && rest[other] == m[other];
        }
        if AnyAssigned(rest, f) {
          var other :| other in rest && rest[other].facilityId == f;
          assert other in m && rest[other] == m[other];
        }
      }
    }
  }

  /** The capacity each facility was last registered with. */
  function Base(base: map<string, int>, l: Ledger, order: seq<string>, op: Op): map<string, int>
    requires Inv(l)
  {
    if op.Register? && Refused(l, order, op).None? then base[op.facilityId := op.room.remaining] else base
  }

  /** What remains and what is assigned add up to what was registered. */
  ghost predicate Conserved(l: Ledger, base: map<string, int>) {
    && l.rooms.Keys == base.Keys
    && forall f :: f in l.rooms ==> l.rooms[f].remaining + Assigned(l.assignments, f) == base[f]
  }

  /** A facility with people in it is registered again. */
  predicate ReplacesOccupied(l: Ledger, order: seq<string>, op: Op)
    requires Inv(l)
  {
    op.Register? && Refused(l, order, op).None? && AnyAssigned(l.assignments, op.facilityId)
  }

  lemma RegisterConserves(l: Ledger, base: map<string, int>, f: string, room: Room)
    requires Inv(l) && Conserved(l, base)
    ensures Conserved(l.(rooms := l.rooms[f := room]), base[f := room.remaining]) <==> !AnyAssigned(l.assignments, f)
  {
    assert forall id :: id in l.assignments ==> Recorded(l, id);
    hide Inv, Assigned, AnyAssigned;
    NoneAssignedIff(l.assignments, f);
    assert f in l.rooms[f := room];
  }

  lemma ReserveConserves(l: Ledger, base: map<string, int>, op: Op, fit: string)
    requires Conserved(l, base) && op.Assign? && op.id !in l.assignments && fit in l.rooms
    ensures Conserved(Reserve(l, op, fit), base)
  {
    hide Assigned;
    forall f | f in l.rooms
      ensures Assigned(Reserve(l, op, fit).assignments, f) == Assigned(l.assignments, f) + if f == fit then op.partySize else 0
    {
      AssignedPutsIn(l.assignments, f, op.id, Reservation(op, fit));
    }
  }

  /** Every call conserves capacity, except exactly the registration of a facility that
      already has somebody assigned. */
  lemma ConservedIff(l: Ledger, base: map<string, int>, order: seq<string>, op: Op)
    requires Inv(l) && Conserved(l, base)
    ensures Conserved(Do(l, order, op), Base(base, l, order, op)) <==> !ReplacesOccupied(l, order, op)
  {
    if Refused(l, order, op).None? {
      match op
      case Register(f, room) => RegisterConserves(l, base, f, room);
      case Assign(id, n, _, _, _) =>
        if id !in l.assignments {
          FirstFitIff(l.rooms, order, n);
          ReserveConserves(l, base, op, FirstFit(l.rooms, order, n).value);
        }
      case Confirm(_, _, _) =>
    }
  }

  ghost predicate NeverReplaces(l: Ledger, order: seq<string>, ops: seq<Op>)
    requires Inv(l)
    decreases |ops|
  {
    ops != [] ==> !ReplacesOccupied(l, order, ops[0])
                  && (StepKeepsInv(l, order, ops[0]); NeverReplaces(Do(l, order, ops[0]), order, ops[1..]))
  }

  function LastBase(base: map<string, int>, l: Ledger, order: seq<string>, ops: seq<Op>): map<string, int>
    requires Inv(l)
    decreases |ops|
  {
    if ops == [] then base
    else StepKeepsInv(l, order, ops[0]); LastBase(Base(base, l, order, ops[0]), Do(l, order, ops[0]), order, ops[1..])
  }

  /** Over every run that never replaces an occupied facility, capacity is conserved; so no
      facility ever holds more people than it was registered to take. */
  lemma {:induction false} CapacityConserved(l: Ledger, base: map<string, int>, order: seq<string>, ops: seq<Op>)
    requires Inv(l) && Conserved(l, base) && NeverReplaces(l, order, ops)
    ensures var t, b := Run(l, order, ops), LastBase(base, l, order, ops);
            && Inv(t) && Conserved(t, b)
            && forall f :: f in t.rooms ==> Assigned(t.assignments, f) <= b[f]
    decreases |ops|
  {
    hide Do, Base, ReplacesOccupied, Assigned;
    if ops == [] {
      assert forall f :: f in l.rooms ==> RoomInBounds(l.rooms[f]);
    } else {
      StepKeepsInv(l, order, ops[0]);
      ConservedIff(l, base, order, ops[0]);
      CapacityConserved(Do(l, order, ops[0]), Base(base, l, order, ops[0]), order, ops[1..]);
    }
  }

  /** Registering each facility once is enough for that. */
  lemma {:induction false} RegisteredOnce(l: Ledger, order: seq<string>, ops: seq<Op>)
    requires Inv(l)
    requires forall i :: 0 <= i < |ops| && ops[i].Register? ==> ops[i].facilityId !in l.rooms
    requires forall i, j :: 0 <= i < j < |ops| && ops[i].Register? && ops[j].Register? ==> ops[i].facilityId != ops[j].facilityId
    ensures NeverReplaces(l, order, ops)
    decreases |ops|
  {
    if ops != [] {
      var op, rest := ops[0], ops[1..];
      StepKeepsInv(l, order, op);
      assert forall id :: id in l.assignments ==> Recorded(l, id);
      forall f | f in Do(l, order, op).rooms && f !in l.rooms
        ensures op.Register? && op.facilityId == f
      {
        FirstFitIff(l.rooms, order, if op.Assign? then op.partySize else 0);
      }
      assert forall i :: 0 <= i < |rest| ==> rest[i] == ops[i + 1];
      RegisteredOnce(Do(l, order, op), order, rest);
    }
  }

  // ------------------------------------------------------------------ overbooking

  predicate HoldsMoreThan(room: Room, taken: int) {
    room.remaining + taken > room.total
  }

  /** No facility has, or has still to give away, more places than it has in all. */
  ghost predicate WithinTotal(l: Ledger) {
    forall f :: f in l.rooms ==> !HoldsMoreThan(l.rooms[f], Assigned(l.assignments, f))
  }

  /** A registration that offers places which are already taken. */
  ghost predicate Overfills(l: Ledger, order: seq<string>, op: Op)
    requires Inv(l)
  {
    op.Register? && Refused(l, order, op).None? && HoldsMoreThan(op.room, Assigned(l.assignments, op.facilityId))
  }

  lemma ReserveWithin(l: Ledger, op: Op, fit: string)
    requires op.Assign? && op.id !in l.assignments && fit in l.rooms && WithinTotal(l)
    ensures WithinTotal(Reserve(l, op, fit))
  {
    hide Assigned;
    var t := Reserve(l, op, fit);
    forall f | f in t.rooms
      ensures !HoldsMoreThan(t.rooms[f], Assigned(t.assignments, f))
    {
      AssignedPutsIn(l.assignments, f, op.id, Reservation(op, fit));
      assert !HoldsMoreThan(l.rooms[f], Assigned(l.assignments, f));
    }
  }

  /** Every call keeps all facilities within their totals, except exactly a registration that
      offers more places than are free. */
  lemma WithinTotalIff(l: Ledger, order: seq<string>, op: Op)
    requires Inv(l) && WithinTotal(l)
    ensures WithinTotal(Do(l, order, op)) <==> !Overfills(l, order, op)
  {
    hide Assigned, HoldsMoreThan;
    if Refused(l, order, op).None? {
      match op
      case Register(f, room) =>
        assert f in Do(l, order, op).rooms;
      case Assign(id, n, _, _, _) =>
        if id !in l.assignments {
          FirstFitIff(l.rooms, order, n);
          ReserveWithin(l, op, FirstFit(l.rooms, order, n).value);
        }
      case Confirm(_, _, _) =>
    }
  }

  ghost predicate NeverOverfills(l: Ledger, order: seq<string>, ops: seq<Op>)
    requires Inv(l)
    decreases |ops|
  {
    ops != [] ==> !Overfills(l, order, ops[0])
                  && (StepKeepsInv(l, order, ops[0]); NeverOverfills(Do(l, order, ops[0]), order, ops[1..]))
  }

  ghost predicate WithinTotalThroughout(l: Ledger, order: seq<string>, ops: seq<Op>)
    requires Inv(l)
    decreases |ops|
  {
    WithinTotal(l) && (ops != [] ==> (StepKeepsInv(l, order, ops[0]); WithinTotalThroughout(Do(l, order, ops[0]), order, ops[1..])))
  }

  /** Over a whole run all facilities stay within their totals if and only if it has no such
      registration; and then none holds more people than it has places. */
  lemma {:induction false} WithinTotalThroughoutIff(l: Ledger, order: seq<string>, ops: seq<Op>)
    requires Inv(l) && WithinTotal(l)
    ensures WithinTotalThroughout(l, order, ops) <==> NeverOverfills(l, order, ops)
    ensures NeverOverfills(l, order, ops) ==>
              var t := Run(l, order, ops);
              Inv(t) && forall f :: f in t.rooms ==> Assigned(t.assignments, f) <= t.rooms[f].total
    decreases |ops|
  {
    if ops == [] {
      assert forall f :: f in l.rooms ==> RoomInBounds(l.rooms[f]);
    } else {
      hide Do, Overfills, Assigned, WithinTotal, Inv;
      StepKeepsInv(l, order, ops[0]);
      WithinTotalIff(l, order, ops[0]);
      if !Overfills(l, order, ops[0]) {
        WithinTotalThroughoutIff(Do(l, order, ops[0]), order, ops[1..]);
      } else {
        assert !WithinTotal(Do(l, order, ops[0]));
      }
    }
  }

  lemma RunHead(l: Ledger, order: seq<string>, op: Op, rest: seq<Op>)
    requires Inv(l)
    ensures Inv(Do(l, order, op)) && Run(l, order, [op] + rest) == Run(Do(l, order, op), order, rest)
  {
    StepKeepsInv(l, order, op);
    assert ([op] + rest)[1..] == rest;
  }

  function Party(id: string, n: int): Op { Assign(id, n, "", "", None) }

  /** A registration, and a party that fills the facility. */
  function Refill(f: string, room: Room, id: string): seq<Op> { [Register(f, room), Party(id, room.total)] }

  /** However many people the facility holds, registering it again makes room for as many more. */
  lemma RegisterAndFill(l: Ledger, f: string, room: Room, id: string, rest: seq<Op>) returns (t: Ledger)
    requires Inv(l) && l.rooms.Keys <= {f} && id !in l.assignments
    requires room.open && 1 <= room.remaining == room.total <= 50
    ensures Inv(t) && t.rooms.Keys == {f} && t.assignments.Keys == l.assignments.Keys + {id}
    ensures Run(l, [f], Refill(f, room, id) + rest) == Run(t, [f], rest)
    ensures Assigned(t.assignments, f) == Assigned(l.assignments, f) + room.total
  {
    var register, party := Register(f, room), Party(id, room.total);
    var l1 := Do(l, [f], register);
    assert l1 == l.(rooms := map[f := room]) by { assert l.rooms[f := room] == map[f := room]; }
    StepKeepsInv(l, [f], register);
    assert FirstFit(l1.rooms, [f], room.total) == Some(f);
    t := Do(l1, [f], party);
    assert t.assignments == l.assignments[id := Reservation(party, f)] && t.rooms.Keys == {f};
    hide Do, Inv, FirstFit;
    AssignedPutsIn(l.assignments, f, id, Reservation(party, f));
    RunHead(l, [f], register, [party] + rest);
    RunHead(l1, [f], party, rest);
    assert Refill(f, room, id) + rest == [register] + ([party] + rest);
  }

  /** Registered again as it was at first, a full facility takes the same number of people
      twice over. */
  lemma ReregistrationOverbooks(f: string, room: Room, a: string, b: string)
    requires room.open && 1 <= room.remaining == room.total <= 50 && a != b
    ensures Assigned(Run(EMPTY, [f], Refill(f, room, a) + (Refill(f, room, b) + [])).assignments, f) == 2 * room.total
  {
    NoneAssignedIff(map[], f);
    var half := RegisterAndFill(EMPTY, f, room, a, Refill(f, room, b) + []);
    var full := RegisterAndFill(half, f, room, b, []);
    RunNothing(full, [f]);
  }

  lemma RunNothing(l: Ledger, order: seq<string>)
    requires Inv(l)
    ensures Run(l, order, []) == l
  {
  }
}
