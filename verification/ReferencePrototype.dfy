/** The store as an object: each command runs in a transaction that updates the
    tables row by row and restores the starting tables when a row is refused. */
module ReferencePrototype {
  import opened Wrappers
  import opened ReferenceModel

  class Prototype {
    var db: Database

    constructor (cap: int)
      ensures db == Empty(cap)
    {
      db := Empty(cap);
    }

    method Audit(p: Principal, action: AuditAction, subject: string)
      modifies this
      ensures db == Audited(old(db), p, action, subject)
    {
      db := db.(audit := db.audit + [AuditRow(p.tenant, p.account, action, subject)]);
    }

    method CreateOrder(p: Principal, order: string, key: string) returns (r: Reply)
      modifies this
      ensures (db, r) == ApplyCreateOrder(old(db), p, order, key)
    {
      if p.role != Customer { return Rejected(Forbidden); }
      var begin := db;
      var k := CommandKey(p.tenant, p.account, CreateAction, key);
      var previous := Replay(db, k, OrderPayload(order));
      if previous.Err? { return Rejected(previous.error); }
      if previous.value.Some? && previous.value.value != "" { return Accepted(previous.value.value); }
      if order in db.orders { return Rejected(Conflict); }
      db := db.(orders := db.orders[order := OrderRow(p.tenant, p.account, Created)]);
      Audit(p, OrderCreated, order);
      if k in db.commands {
        db := begin;
        return Rejected(Conflict);
      }
      db := db.(commands := db.commands[k := CommandRow(OrderPayload(order), order)]);
      return Accepted(order);
    }

    method Assign(p: Principal, order: string, vehicle: string, key: string, failBeforeCommit: bool)
      returns (r: Reply)
      modifies this
      ensures (db, r) == ApplyAssign(old(db), p, order, vehicle, key, failBeforeCommit)
    {
      if p.role != Dispatcher { return Rejected(Forbidden); }
      var begin := db;
      var k := CommandKey(p.tenant, p.account, AssignAction, key);
      var previous := Replay(db, k, AssignPayload(order, vehicle));
      if previous.Err? { return Rejected(previous.error); }
      if previous.value.Some? && previous.value.value != "" { return Accepted(previous.value.value); }
      if !AssignEligible(db, p, order, vehicle) { return Rejected(Ineligible); }
      if order in db.assignments || VehicleTaken(db.assignments, vehicle) { return Rejected(Conflict); }
      db := db.(assignments := db.assignments[order := AssignmentRow(vehicle, db.vehicles[vehicle].vendor)]);
      db := db.(orders := db.orders[order := db.orders[order].(state := Assigned)]);
      Audit(p, OrderAssigned, order);
      assert Queued(db.outbox, order) == Queued(begin.outbox, order);
      if Queued(db.outbox, order) {
        db := begin;
        return Rejected(Conflict);
      }
      db := db.(outbox := db.outbox + [OutboxRow(order, None, 0, false, 0)]);
      if failBeforeCommit {
        db := begin;
        return Rejected(InjectedInterruption);
      }
      if k in db.commands {
        db := begin;
        return Rejected(Conflict);
      }
      db := db.(commands := db.commands[k := CommandRow(AssignPayload(order, vehicle), order)]);
      return Accepted(order);
    }

    method Claim(token: string, now: int, ttl: int) returns (r: Reply)
      modifies this
      ensures (db, r) == ApplyClaim(old(db), token, now, ttl)
    {
      if token == "" || !(0 < ttl <= 5) { return Rejected(LeaseRejected); }
      var k := 0;
      while k < |db.outbox| && !Claimable(db.outbox[k], now)
        invariant k <= |db.outbox|
        invariant FirstClaimable(db.outbox, now, k) == FirstClaimable(db.outbox, now, 0)
      {
        k := k + 1;
      }
      if k == |db.outbox| { return Leased(None); }
      var row := db.outbox[k];
      db := db.(outbox := db.outbox[k := row.(lease := Some(token), until := now + ttl, generation := row.generation + 1)]);
      return Leased(Some(Lease(k + 1, row.generation + 1)));
    }

    method Acknowledge(lease: Lease, token: string, now: int) returns (r: Reply)
      modifies this
      ensures (db, r) == ApplyAcknowledge(old(db), lease, token, now)
    {
      if !LeaseCurrent(db, lease, token, now) { return Rejected(StaleLease); }
      db := db.(outbox := db.outbox[lease.job - 1 := db.outbox[lease.job - 1].(done := true)]);
      return Accepted("");
    }

    method Payment(signed: bool, d: EventData) returns (r: Reply)
      modifies this
      ensures (db, r) == ApplyPayment(old(db), signed, d)
    {
      if !signed { return Rejected(BadSignature); }
      if d.amount <= 0 { return Rejected(BadAmount); }
      if d.event in db.events {
        if db.events[d.event] != d { return Rejected(EventConflict); }
        return Accepted("");
      }
      if d.order !in db.orders || db.orders[d.order].tenant != d.tenant { return Rejected(UnknownOrder); }
      var row := PaymentRow(d.tenant, d.order, d.amount);
      if d.payment in db.payments {
        if db.payments[d.payment] != row { return Rejected(PaymentConflict); }
      } else {
        if OrderPaid(db.payments, d.order) { return Rejected(Conflict); }
        db := db.(payments := db.payments[d.payment := row]);
        Audit(Principal(d.tenant, Webhook, OtherRole), PaymentRecorded, d.order);
      }
      db := db.(events := db.events[d.event := d]);
      return Accepted("");
    }

    method RequestRefund(p: Principal, refund: string, order: string) returns (r: Reply)
      modifies this
      ensures (db, r) == ApplyRequestRefund(old(db), p, refund, order)
    {
      if p.role != Customer { return Rejected(Forbidden); }
      if !(order in db.orders && db.orders[order].tenant == p.tenant && db.orders[order].customer == p.account) {
        return Rejected(NotFound);
      }
      if refund in db.refunds {
        var row := db.refunds[refund];
        if !(row.tenant == p.tenant && row.requester == p.account && row.order == order) { return Rejected(Conflict); }
        return Accepted("");
      }
      db := db.(refunds := db.refunds[refund := RefundRow(p.tenant, p.account, order, None)]);
      Audit(p, RefundRequested, refund);
      return Accepted("");
    }

    method ApproveRefund(p: Principal, refund: string) returns (r: Reply)
      modifies this
      ensures (db, r) == ApplyApproveRefund(old(db), p, refund)
    {
      if p.role != HumanAdmin { return Rejected(ManualApprovalRequired); }
      if !(refund in db.refunds && db.refunds[refund].tenant == p.tenant && db.refunds[refund].requester != p.account) {
        return Rejected(SelfApprovalDenied);
      }
      if db.refunds[refund].approvedBy.Some? {
        if db.refunds[refund].approvedBy != Some(p.account) { return Rejected(Conflict); }
        return Accepted("");
      }
      db := db.(refunds := db.refunds[refund := db.refunds[refund].(approvedBy := Some(p.account))]);
      Audit(p, RefundApproved, refund);
      return Accepted("");
    }

    method ReserveAgent(p: Principal, grant: string, reservation: string, endpoint: string, model: string,
                        units: int, now: int)
      returns (r: Reply)
      modifies this
      ensures (db, r) == ApplyReserveAgent(old(db), p, grant, reservation, endpoint, model, units, now)
    {
      if p.role != Agent || units <= 0 { return Rejected(Forbidden); }
      if grant !in db.grants || !GrantCovers(db.grants[grant], p, endpoint, model, units, now) {
        return Rejected(GrantRejected);
      }
      if reservation in db.reservations {
        if db.reservations[reservation] != ReservationRow(grant, units) { return Rejected(Conflict); }
        return Accepted("");
      }
      if db.grants[grant].used { return Rejected(GrantConsumed); }
      if db.reserved + units > db.cap { return Rejected(BudgetExceeded); }
      var begin := db;
      db := db.(reserved := db.reserved + units);
      if GrantReserved(db.reservations, grant) {
        db := begin;
        return Rejected(Conflict);
      }
      db := db.(reservations := db.reservations[reservation := ReservationRow(grant, units)]);
      db := db.(grants := db.grants[grant := db.grants[grant].(used := true)]);
      Audit(p, AgentReserved, reservation);
      return Accepted("");
    }
  }
}
