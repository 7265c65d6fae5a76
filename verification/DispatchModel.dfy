/** The dispatch tables, and each dispatch command as one serial transaction. */
module DispatchModel {
  import opened Wrappers

  datatype OfferStatus = Pending | Accepted | Declined | Cancelled | Expired

  datatype Offer = Offer(order: string, status: OfferStatus, expires: int)

  /** An assignment is identified by its position; its trip is the trip of its order. */
  datatype Assignment = Assignment(offer: string, order: string, released: bool)

  datatype Tables = Tables(
    offers: map<string, Offer>, orders: map<string, string>, trips: map<string, string>, assignments: seq<Assignment>)

  datatype Code =
    | NotFound | Forbidden | OfferExpired | NotPending | ActiveAssignment | AlreadyAccepted | GuardRefused
    | WrongOrderStatus | AssignmentMissing

  datatype Reply = Assigned(position: nat, replayed: bool) | Resolved | Refused(code: Code)

  /** Commands, with what the tables outside this model answer: whether the actor is
      authorized, the clock, and whether the remaining guards admit the assignment. */
  datatype Command =
    | Accept(offer: string, authorized: bool, now: int, admissible: bool)
    | Resolve(offer: string, cancel: bool, authorized: bool)
    | ExpireIfDue(offer: string, now: int)
    | NewOrder(order: string, state: string)
    | NewOffer(offer: string, order: string, expires: int)
    | NewTrip(order: string)
    | MoveOrder(order: string, state: string)
    | MoveTrip(order: string, state: string)
    | Release(position: nat)

  predicate AcceptedFor(t: Tables, order: string, o: string) {
    o in t.offers && t.offers[o].order == order && t.offers[o].status == Accepted
  }

  predicate HasAccepted(t: Tables, order: string) {
    exists o | o in t.offers :: AcceptedFor(t, order, o)
  }

  predicate ActiveAt(t: Tables, order: string, i: int) {
    0 <= i < |t.assignments| && t.assignments[i].order == order && !t.assignments[i].released
  }

  predicate HasActive(t: Tables, order: string) {
    exists i | 0 <= i < |t.assignments| :: ActiveAt(t, order, i)
  }

  /** The first assignment made from an offer at or after i, or the end. */
  function AssignmentOf(assignments: seq<Assignment>, offer: string, i: nat): (k: nat)
    requires i <= |assignments|
    ensures i <= k <= |assignments|
    ensures k < |assignments| ==> assignments[k].offer == offer
    ensures forall j | i <= j < k :: assignments[j].offer != offer
    decreases |assignments| - i
  {
    if i == |assignments| || assignments[i].offer == offer then i else AssignmentOf(assignments, offer, i + 1)
  }

  function TripAfter(trips: map<string, string>, order: string): map<string, string> {
    if order !in trips || trips[order] == "planned" then trips[order := "assigned"] else trips
  }

  /** The rows an accepted offer leaves behind. */
  function Assign(t: Tables, o: string): Tables
    requires o in t.offers
  {
    var order := t.offers[o].order;
    Tables(t.offers[o := t.offers[o].(status := Accepted)], t.orders[order := "assigned"],
           TripAfter(t.trips, order), t.assignments + [Assignment(o, order, false)])
  }

  function AcceptRefusal(t: Tables, o: string, authorized: bool, now: int, admissible: bool): Option<Code>
    requires o in t.offers
  {
    var row := t.offers[o];
    if !authorized then Some(Forbidden)
    else if row.status == Accepted then None
    else if row.status == Pending && row.expires <= now then Some(OfferExpired)
    else if row.status != Pending then Some(NotPending)
    else if HasActive(t, row.order) then Some(ActiveAssignment)
    else if HasAccepted(t, row.order) then Some(AlreadyAccepted)
    else if !admissible then Some(GuardRefused)
    else if row.order !in t.orders || t.orders[row.order] != "confirmed" then Some(WrongOrderStatus)
    else None
  }

  function ApplyAccept(t: Tables, o: string, authorized: bool, now: int, admissible: bool): (Tables, Reply) {
    if o !in t.offers then (t, Refused(NotFound))
    else if AcceptRefusal(t, o, authorized, now, admissible).Some? then
      (t, Refused(AcceptRefusal(t, o, authorized, now, admissible).value))
    else if t.offers[o].status == Accepted then
      var k := AssignmentOf(t.assignments, o, 0);
      (t, if k == |t.assignments| then Refused(AssignmentMissing) else Assigned(k, true))
    else (Assign(t, o), Assigned(|t.assignments|, false))
  }

  function Settle(t: Tables, o: string, status: OfferStatus): Tables
    requires o in t.offers
  {
    t.(offers := t.offers[o := t.offers[o].(status := status)])
  }

  /** Declining needs an actor of the offer, cancelling an administrator. */
  function ApplyResolve(t: Tables, o: string, cancel: bool, authorized: bool): (Tables, Reply) {
    if cancel && !authorized then (t, Refused(Forbidden))
    else if o !in t.offers then (t, Refused(NotFound))
    else if !authorized then (t, Refused(Forbidden))
    else if t.offers[o].status != Pending then (t, Refused(NotPending))
    else (Settle(t, o, if cancel then Cancelled else Declined), Resolved)
  }

  predicate Due(t: Tables, o: string, now: int) {
    o in t.offers && t.offers[o].status == Pending && t.offers[o].expires <= now
  }

  function ApplyExpire(t: Tables, o: string, now: int): (Tables, Reply) {
    if Due(t, o, now) then (Settle(t, o, Expired), Resolved) else (t, Refused(NotPending))
  }

  function Apply(t: Tables, c: Command): (Tables, Reply) {
    match c
    case Accept(o, authorized, now, admissible) => ApplyAccept(t, o, authorized, now, admissible)
    case Resolve(o, cancel, authorized) => ApplyResolve(t, o, cancel, authorized)
    case ExpireIfDue(o, now) => ApplyExpire(t, o, now)
    case NewOrder(order, state) =>
      if order in t.orders then (t, Refused(NotFound)) else (t.(orders := t.orders[order := state]), Resolved)
    case NewOffer(o, order, expires) =>
      if o in t.offers || order !in t.orders then (t, Refused(NotFound))
      else (t.(offers := t.offers[o := Offer(order, Pending, expires)]), Resolved)
    case NewTrip(order) =>
      if order in t.trips then (t, Refused(NotFound)) else (t.(trips := t.trips[order := "planned"]), Resolved)
    case MoveOrder(order, state) =>
      if order !in t.orders then (t, Refused(NotFound)) else (t.(orders := t.orders[order := state]), Resolved)
    case MoveTrip(order, state) =>
      if order !in t.trips || state == "planned" then (t, Refused(NotFound))
      else (t.(trips := t.trips[order := state]), Resolved)
    case Release(i) =>
      if i >= |t.assignments| then (t, Refused(NotFound))
      else (t.(assignments := t.assignments[i := t.assignments[i].(released := true)]), Resolved)
  }

  /** The tables after a serial run. */
  function Run(t: Tables, cs: seq<Command>): Tables {
    if cs == [] then t else Apply(Run(t, cs[..|cs| - 1]), cs[|cs| - 1]).0
  }

  function Empty(): Tables {
    Tables(map[], map[], map[], [])
  }

  /** At most one accepted offer per order. */
  predicate OneAccepted(t: Tables) {
    forall o, q | o in t.offers && q in t.offers
                  && t.offers[o].status == Accepted && t.offers[q].status == Accepted
                  && t.offers[o].order == t.offers[q].order :: o == q
  }

  /** Every assignment belongs to an accepted offer of its order, no two to the same. */
  predicate AssignmentsMatched(t: Tables) {
    && (forall i | 0 <= i < |t.assignments| :: AcceptedFor(t, t.assignments[i].order, t.assignments[i].offer))
    && (forall i, j | 0 <= i < j < |t.assignments| :: t.assignments[i].offer != t.assignments[j].offer)
  }

  /** Every accepted offer has its assignment. */
  predicate OffersMatched(t: Tables) {
    forall o | o in t.offers && t.offers[o].status == Accepted :: AssignmentOf(t.assignments, o, 0) < |t.assignments|
  }

  predicate Wf(t: Tables) {
    OneAccepted(t) && AssignmentsMatched(t) && OffersMatched(t)
  }

  lemma {:induction false} AssignmentOfAppend(assignments: seq<Assignment>, a: Assignment, o: string, i: nat)
    requires i <= |assignments|
    ensures AssignmentOf(assignments + [a], o, i)
         == if AssignmentOf(assignments, o, i) < |assignments| then AssignmentOf(assignments, o, i)
            else if a.offer == o then |assignments| else |assignments| + 1
    decreases |assignments| - i
  {
    if i < |assignments| { AssignmentOfAppend(assignments, a, o, i + 1); }
  }

  lemma {:induction false} AssignmentOfUpdate(assignments: seq<Assignment>, k: nat, o: string, i: nat)
    requires i <= |assignments| && k < |assignments|
    ensures AssignmentOf(assignments[k := assignments[k].(released := true)], o, i) == AssignmentOf(assignments, o, i)
    decreases |assignments| - i
  {
    if i < |assignments| { AssignmentOfUpdate(assignments, k, o, i + 1); }
  }

  lemma AssignWf(t: Tables, o: string)
    requires Wf(t) && o in t.offers && t.offers[o].status == Pending && !HasAccepted(t, t.offers[o].order)
    ensures Wf(Assign(t, o))
  {
    var after := Assign(t, o);
    var n := |t.assignments|;
    var order := t.offers[o].order;
    forall q | q in after.offers && after.offers[q].status == Accepted && after.offers[q].order == order
      ensures q == o
    {
      assert !AcceptedFor(t, order, q);
    }
    forall i | 0 <= i < n + 1
      ensures AcceptedFor(after, after.assignments[i].order, after.assignments[i].offer)
      ensures i < n ==> after.assignments[i].offer != o
    {
      assert i < n ==> AcceptedFor(t, t.assignments[i].order, t.assignments[i].offer);
    }
    forall q | q in after.offers && after.offers[q].status == Accepted
      ensures AssignmentOf(after.assignments, q, 0) < |after.assignments|
    {
      AssignmentOfAppend(t.assignments, after.assignments[n], q, 0);
    }
  }

  lemma SettleWf(t: Tables, o: string, status: OfferStatus)
    requires Wf(t) && o in t.offers && t.offers[o].status == Pending && status != Accepted
    ensures Wf(Settle(t, o, status))
  {
    var after := Settle(t, o, status);
    forall i | 0 <= i < |t.assignments| ensures AcceptedFor(after, t.assignments[i].order, t.assignments[i].offer) {
      assert AcceptedFor(t, t.assignments[i].order, t.assignments[i].offer);
    }
  }

  lemma ReleaseWf(t: Tables, k: nat)
    requires Wf(t) && k < |t.assignments|
    ensures Wf(t.(assignments := t.assignments[k := t.assignments[k].(released := true)]))
  {
    var after := t.(assignments := t.assignments[k := t.assignments[k].(released := true)]);
    forall i | 0 <= i < |after.assignments|
      ensures AcceptedFor(after, after.assignments[i].order, after.assignments[i].offer)
    {
      assert AcceptedFor(t, t.assignments[i].order, t.assignments[i].offer);
    }
    forall q | q in after.offers && after.offers[q].status == Accepted
      ensures AssignmentOf(after.assignments, q, 0) < |after.assignments|
    {
      AssignmentOfUpdate(t.assignments, k, q, 0);
    }
  }

  lemma NewOfferWf(t: Tables, o: string, order: string, expires: int)
    requires Wf(t) && o !in t.offers
    ensures Wf(t.(offers := t.offers[o := Offer(order, Pending, expires)]))
  {
    var after := t.(offers := t.offers[o := Offer(order, Pending, expires)]);
    forall i | 0 <= i < |t.assignments| ensures AcceptedFor(after, t.assignments[i].order, t.assignments[i].offer) {
      assert AcceptedFor(t, t.assignments[i].order, t.assignments[i].offer);
    }
  }

  lemma SameOffersWf(t: Tables, after: Tables)
    requires Wf(t) && after.offers == t.offers && after.assignments == t.assignments
    ensures Wf(after)
  {
    forall i | 0 <= i < |t.assignments| ensures AcceptedFor(after, t.assignments[i].order, t.assignments[i].offer) {
      assert AcceptedFor(t, t.assignments[i].order, t.assignments[i].offer);
    }
  }

  lemma StepWf(t: Tables, c: Command)
    requires Wf(t)
    ensures Wf(Apply(t, c).0)
  {
    match c {
      case Accept(o, authorized, now, admissible) =>
        if Apply(t, c).0 != t { AssignWf(t, o); }
      case Resolve(o, cancel, authorized) =>
        if Apply(t, c).0 != t { SettleWf(t, o, if cancel then Cancelled else Declined); }
      case ExpireIfDue(o, now) =>
        if Due(t, o, now) { SettleWf(t, o, Expired); }
      case NewOffer(o, order, expires) =>
        if Apply(t, c).0 != t { NewOfferWf(t, o, order, expires); }
      case Release(i) =>
        if i < |t.assignments| { ReleaseWf(t, i); }
      case _ => SameOffersWf(t, Apply(t, c).0);
    }
  }

  /** Accepted offers and assignments stay in one-to-one correspondence, so no order ever
      has two unreleased assignments. */
  lemma {:induction false} RunWf(cs: seq<Command>)
    ensures Wf(Run(Empty(), cs))
    ensures forall order, i, j | ActiveAt(Run(Empty(), cs), order, i) && ActiveAt(Run(Empty(), cs), order, j) :: i == j
  {
    if cs != [] {
      RunWf(cs[..|cs| - 1]);
      StepWf(Run(Empty(), cs[..|cs| - 1]), cs[|cs| - 1]);
    }
    var t := Run(Empty(), cs);
    forall order, i, j | ActiveAt(t, order, i) && ActiveAt(t, order, j) ensures i == j { OneActive(t, order, i, j); }
  }

  /** An order never has two unreleased assignments. */
  lemma OneActive(t: Tables, order: string, i: int, j: int)
    requires Wf(t) && ActiveAt(t, order, i) && ActiveAt(t, order, j)
    ensures i == j
  {
    assert AcceptedFor(t, order, t.assignments[i].offer);
    assert AcceptedFor(t, order, t.assignments[j].offer);
  }

  /** A decided offer keeps its decision, and its replayed acceptance always finds the assignment. */
  lemma DecidedOffersStay(t: Tables, c: Command, o: string)
    requires Wf(t) && o in t.offers && t.offers[o].status != Pending
    ensures o in Apply(t, c).0.offers && Apply(t, c).0.offers[o] == t.offers[o]
    ensures c.Accept? && c.offer == o && c.authorized && t.offers[o].status == Accepted ==>
              Apply(t, c) == (t, Assigned(AssignmentOf(t.assignments, o, 0), true))
  {
  }
}
