/** The dispatch repository as an object: each method is one transaction that writes its
    rows in turn and restores the tables when a statement is refused. */
module DispatchRepository {
  import opened DispatchModel

  class Repository {
    var t: Tables

    constructor ()
      ensures t == Empty()
    {
      t := Empty();
    }

    /** The order transition, an abstract step: it fails unless the order has the expected status. */
    method TransitionOrder(order: string, expected: string, requested: string) returns (ok: bool)
      modifies this
      ensures ok == (order in old(t).orders && old(t).orders[order] == expected)
      ensures t == if ok then old(t).(orders := old(t).orders[order := requested]) else old(t)
    {
      if order !in t.orders || t.orders[order] != expected { return false; }
      t := t.(orders := t.orders[order := requested]);
      return true;
    }

    method AcceptDispatchOffer(o: string, authorized: bool, now: int, admissible: bool) returns (r: Reply)
      modifies this
      ensures (t, r) == Apply(old(t), Accept(o, authorized, now, admissible))
    {
      if o !in t.offers { return Refused(NotFound); }
      var row := t.offers[o];
      if !authorized { return Refused(Forbidden); }
      if row.status == Accepted {
        var k := AssignmentOf(t.assignments, o, 0);
        if k == |t.assignments| { return Refused(AssignmentMissing); }
        return Assigned(k, true);
      }
      if row.status == Pending && row.expires <= now { return Refused(OfferExpired); }
      if row.status != Pending { return Refused(NotPending); }
      if HasActive(t, row.order) { return Refused(ActiveAssignment); }
      if HasAccepted(t, row.order) { return Refused(AlreadyAccepted); }
      var begin := t;
      t := t.(offers := t.offers[o := row.(status := Accepted)]);
      if row.order !in t.trips {
        t := t.(trips := t.trips[row.order := "assigned"]);
      } else if t.trips[row.order] == "planned" {
        t := t.(trips := t.trips[row.order := "assigned"]);
      }
      if !admissible {
        t := begin;
        return Refused(GuardRefused);
      }
      t := t.(assignments := t.assignments + [Assignment(o, row.order, false)]);
      var ok := TransitionOrder(row.order, "confirmed", "assigned");
      if !ok {
        t := begin;
        return Refused(WrongOrderStatus);
      }
      return Assigned(|begin.assignments|, false);
    }

    method ResolveOffer(o: string, cancel: bool, authorized: bool) returns (r: Reply)
      modifies this
      ensures (t, r) == Apply(old(t), Resolve(o, cancel, authorized))
    {
      if cancel && !authorized { return Refused(Forbidden); }
      if o !in t.offers { return Refused(NotFound); }
      if !cancel && !authorized { return Refused(Forbidden); }
      var row := t.offers[o];
      if row.status != Pending { return Refused(NotPending); }
      t := t.(offers := t.offers[o := row.(status := if cancel then Cancelled else Declined)]);
      return Resolved;
    }

    method Expire(o: string, now: int) returns (expired: bool)
      modifies this
      ensures t == Apply(old(t), ExpireIfDue(o, now)).0
      ensures expired == Apply(old(t), ExpireIfDue(o, now)).1.Resolved?
    {
      expired := false;
      if o in t.offers && t.offers[o].status == Pending && t.offers[o].expires <= now {
        t := t.(offers := t.offers[o := t.offers[o].(status := Expired)]);
        expired := true;
      }
    }
  }
}
