/** What an acceptance, a decision and an expiry answer and write, said of the rows alone. */
module DispatchAnswers {
  import opened DispatchModel

  /** Nobody holds the order: each of its assignments is released, none of its offers accepted. */
  ghost predicate OrderFree(t: Tables, order: string) {
    && (forall i | 0 <= i < |t.assignments| && t.assignments[i].order == order :: t.assignments[i].released)
    && (forall q | q in t.offers && t.offers[q].order == order :: t.offers[q].status != Accepted)
  }

  lemma FreeExactly(t: Tables, order: string)
    ensures OrderFree(t, order) <==> !HasActive(t, order) && !HasAccepted(t, order)
  {
    if OrderFree(t, order) {
      assert !HasActive(t, order);
      assert !HasAccepted(t, order);
    }
    if !HasActive(t, order) {
      forall i | 0 <= i < |t.assignments| && t.assignments[i].order == order ensures t.assignments[i].released {
        assert !ActiveAt(t, order, i);
      }
    }
    if !HasAccepted(t, order) {
      forall q | q in t.offers && t.offers[q].order == order ensures t.offers[q].status != Accepted {
        assert !AcceptedFor(t, order, q);
      }
    }
  }

  /** An offer that was accepted before is found again with its assignment. */
  lemma ReplayedExactly(t: Tables, o: string, authorized: bool, now: int, admissible: bool)
    requires o in t.offers && t.offers[o].status == Accepted
    ensures Apply(t, Accept(o, authorized, now, admissible)).0 == t
    ensures var r := Apply(t, Accept(o, authorized, now, admissible)).1;
            && (r.Assigned? <==> authorized && exists i | 0 <= i < |t.assignments| :: t.assignments[i].offer == o)
            && (r.Assigned? ==> r.replayed && r.position < |t.assignments| && t.assignments[r.position].offer == o)
  {
  }

  /** An acceptance is answered with an assignment exactly when the offer exists, the actor
      may accept it, and it either was accepted before and has its assignment, or is pending
      and not due while its confirmed order is free and the guards admit it. */
  lemma AcceptedExactly(t: Tables, o: string, authorized: bool, now: int, admissible: bool)
    ensures Apply(t, Accept(o, authorized, now, admissible)).1.Assigned?
       <==> && o in t.offers && authorized
            && var row := t.offers[o];
               || (row.status == Accepted && exists i | 0 <= i < |t.assignments| :: t.assignments[i].offer == o)
               || (&& row.status == Pending && now < row.expires && OrderFree(t, row.order) && admissible
                   && row.order in t.orders && t.orders[row.order] == "confirmed")
  {
    if o in t.offers {
      FreeExactly(t, t.offers[o].order);
      if t.offers[o].status == Accepted { ReplayedExactly(t, o, authorized, now, admissible); }
    }
  }

  /** A first acceptance writes these rows and no others; any other answer writes none. */
  lemma AcceptanceWrites(t: Tables, o: string, authorized: bool, now: int, admissible: bool)
    ensures var (t', r) := Apply(t, Accept(o, authorized, now, admissible));
            && (t' != t <==> r.Assigned? && !r.replayed)
            && (t' != t ==>
                  && o in t.offers && r.position == |t.assignments|
                  && var order := t.offers[o].order;
                     && t'.offers == t.offers[o := Offer(order, Accepted, t.offers[o].expires)]
                     && t'.orders == t.orders[order := "assigned"]
                     && t'.assignments == t.assignments + [Assignment(o, order, false)]
                     && order in t'.trips && t'.trips - {order} == t.trips - {order}
                     && t'.trips[order] == if order in t.trips && t.trips[order] != "planned" then t.trips[order]
                                           else "assigned")
  {
    var (t', r) := Apply(t, Accept(o, authorized, now, admissible));
    if r.Assigned? && !r.replayed { assert |t'.assignments| == |t.assignments| + 1; }
  }

  /** Neither a stranger nor an assignment the guards refuse changes anything. */
  lemma RefusedActorChangesNothing(t: Tables, o: string, authorized: bool, now: int, admissible: bool)
    requires !authorized || (!admissible && (o in t.offers ==> t.offers[o].status != Accepted))
    ensures Apply(t, Accept(o, authorized, now, admissible)).0 == t
    ensures Apply(t, Accept(o, authorized, now, admissible)).1.Refused?
    ensures !authorized && o in t.offers ==>
              Apply(t, Accept(o, authorized, now, admissible)).1 == Refused(Forbidden)
  {
    AcceptedExactly(t, o, authorized, now, admissible);
    AcceptanceWrites(t, o, authorized, now, admissible);
  }

  /** An offer is decided exactly when it is pending and the actor may decide it: it is
      cancelled or declined as asked, and no other row changes. */
  lemma ResolvedExactly(t: Tables, o: string, cancel: bool, authorized: bool)
    ensures var (t', r) := Apply(t, Resolve(o, cancel, authorized));
            && (r.Resolved? <==> o in t.offers && authorized && t.offers[o].status == Pending)
            && (!r.Resolved? ==> t' == t)
            && (r.Resolved? ==>
                  && t'.offers.Keys == t.offers.Keys && t'.offers - {o} == t.offers - {o}
                  && t'.offers[o].order == t.offers[o].order && t'.offers[o].expires == t.offers[o].expires
                  && (t'.offers[o].status == Cancelled <==> cancel) && (t'.offers[o].status == Declined <==> !cancel)
                  && t'.orders == t.orders && t'.trips == t.trips && t'.assignments == t.assignments)
  {
  }

  /** An offer expires exactly when it is pending at or after its deadline. */
  lemma ExpiredExactly(t: Tables, o: string, now: int)
    ensures var (t', r) := Apply(t, ExpireIfDue(o, now));
            && (r.Resolved? <==> o in t.offers && t.offers[o].status == Pending && t.offers[o].expires <= now)
            && (!r.Resolved? ==> t' == t)
            && (r.Resolved? ==>
                  && t' == t.(offers := t.offers[o := Offer(t.offers[o].order, Expired, t.offers[o].expires)]))
  {
  }
}
