/** What every command keeps, so what holds of the store after every run. */
module ReferenceConservation {
  import opened Wrappers
  import opened ReferenceModel

  function Subjects(outbox: seq<OutboxRow>): seq<string> {
    seq(|outbox|, i requires 0 <= i < |outbox| => outbox[i].subject)
  }

  /** An order is assigned iff it has an assignment, iff it has one outbox row. */
  ghost predicate OrdersWf(orders: map<string, OrderRow>, placed: map<string, AssignmentRow>,
                           subjects: seq<string>)
  {
    && (forall o | o in placed :: o in orders)
    && (forall o | o in orders :: orders[o].state == Assigned <==> o in placed)
    && (forall o | o in placed :: o in subjects)
    && (forall o | o in subjects :: o in placed)
    && (forall i, j | 0 <= i < j < |subjects| :: subjects[i] != subjects[j])
  }

  /** Each assignment uses an eligible vehicle of the order's tenant, used once. */
  ghost predicate AssignmentsWf(orders: map<string, OrderRow>, placed: map<string, AssignmentRow>,
                                vehicles: map<string, VehicleRow>)
  {
    && (forall o | o in placed ::
          && o in orders && placed[o].vehicle in vehicles
          && vehicles[placed[o].vehicle].eligible
          && vehicles[placed[o].vehicle].tenant == orders[o].tenant
          && vehicles[placed[o].vehicle].vendor == placed[o].vendor)
    && (forall o, q | o in placed && q in placed && o != q :: placed[o].vehicle != placed[q].vehicle)
  }

  /** One positive payment per order of its tenant. */
  ghost predicate PaymentsWf(orders: map<string, OrderRow>, payments: map<string, PaymentRow>) {
    && (forall q | q in payments ::
          payments[q].order in orders && orders[payments[q].order].tenant == payments[q].tenant
          && payments[q].amount > 0)
    && (forall q, r | q in payments && r in payments && q != r :: payments[q].order != payments[r].order)
  }

  /** Every accepted event tells the payment that is recorded. */
  ghost predicate EventsWf(payments: map<string, PaymentRow>, events: map<string, EventData>) {
    forall e | e in events ::
      && events[e].event == e && events[e].payment in payments
      && payments[events[e].payment] == PaymentRow(events[e].tenant, events[e].order, events[e].amount)
  }

  /** A refund is requested by the order's customer and never approved by them. */
  ghost predicate RefundsWf(orders: map<string, OrderRow>, refunds: map<string, RefundRow>) {
    forall r | r in refunds ::
      && refunds[r].order in orders
      && orders[refunds[r].order].tenant == refunds[r].tenant
      && orders[refunds[r].order].customer == refunds[r].requester
      && refunds[r].approvedBy != Some(refunds[r].requester)
  }

  ghost function SumUnits(m: map<string, ReservationRow>): int {
    if m == map[] then 0
    else
      var k :| k in m;
      m[k].units + SumUnits(m - {k})
  }

  /** The reserved budget is what the reservations add up to, within the cap; a
      grant is used iff exactly one reservation, within its units, names it. */
  ghost predicate BudgetWf(cap: int, reserved: int, grants: map<string, GrantRow>,
                           reservations: map<string, ReservationRow>)
  {
    && reserved == SumUnits(reservations) && reserved <= cap
    && (forall r | r in reservations ::
          && reservations[r].grant in grants && grants[reservations[r].grant].used
          && 0 < reservations[r].units <= grants[reservations[r].grant].maxUnits)
    && (forall r, q | r in reservations && q in reservations && r != q ::
          reservations[r].grant != reservations[q].grant)
    && (forall g | g in grants && grants[g].used :: exists r :: r in reservations && reservations[r].grant == g)
  }

  function Approved(refunds: map<string, RefundRow>): set<string> {
    set r | r in refunds && refunds[r].approvedBy.Some?
  }

  /** One audit row for each business fact, and none for anything else. */
  ghost predicate AuditWf(db: Database) {
    |db.audit| == |db.orders| + |db.assignments| + |db.payments| + |db.refunds|
                  + |Approved(db.refunds)| + |db.reservations|
  }

  ghost predicate Wf(db: Database) {
    && OrdersWf(db.orders, db.assignments, Subjects(db.outbox))
    && AssignmentsWf(db.orders, db.assignments, db.vehicles)
    && PaymentsWf(db.orders, db.payments)
    && EventsWf(db.payments, db.events)
    && RefundsWf(db.orders, db.refunds)
    && BudgetWf(db.cap, db.reserved, db.grants, db.reservations)
    && AuditWf(db)
  }

  /** The sum does not depend on which row is taken first. */
  lemma {:induction false} SumUnitsTake(m: map<string, ReservationRow>, k: string)
    requires k in m
    ensures SumUnits(m) == m[k].units + SumUnits(m - {k})
  {
    var j :| j in m && SumUnits(m) == m[j].units + SumUnits(m - {j});
    if j != k {
      SumUnitsTake(m - {j}, k);
      SumUnitsTake(m - {k}, j);
      assert m - {j} - {k} == m - {k} - {j};
    }
  }

  lemma SumUnitsInsert(m: map<string, ReservationRow>, k: string, row: ReservationRow)
    requires k !in m
    ensures SumUnits(m[k := row]) == SumUnits(m) + row.units
  {
    SumUnitsTake(m[k := row], k);
    assert m[k := row] - {k} == m;
  }

  lemma EmptyWf(cap: int)
    requires cap >= 0
    ensures Wf(Empty(cap))
  {
  }

  /** Which tables a command may touch. */
  lemma Touched(db: Database, c: Command)
    ensures var db' := Apply(db, c).0;
            && (!c.CreateOrder? && !c.Assign? ==> db'.orders == db.orders)
            && (!c.Assign? ==> db'.assignments == db.assignments)
            && (!c.SeedVehicle? ==> db'.vehicles == db.vehicles)
            && (!c.Payment? ==> db'.payments == db.payments && db'.events == db.events)
            && (!c.RequestRefund? && !c.ApproveRefund? ==> db'.refunds == db.refunds)
  {
  }

  lemma BudgetTouched(db: Database, c: Command)
    ensures var db' := Apply(db, c).0;
            && db'.cap == db.cap
            && (!c.ReserveAgent? ==> db'.reservations == db.reservations && db'.reserved == db.reserved)
            && (!c.ReserveAgent? && !c.SeedGrant? ==> db'.grants == db.grants)
  {
  }

  lemma SubjectKept(outbox: seq<OutboxRow>, k: nat, row: OutboxRow)
    requires k < |outbox| && row.subject == outbox[k].subject
    ensures Subjects(outbox[k := row]) == Subjects(outbox)
  {
  }

  lemma ClaimSubjects(db: Database, token: string, now: int, ttl: int)
    ensures Subjects(ApplyClaim(db, token, now, ttl).0.outbox) == Subjects(db.outbox)
  {
    var k := FirstClaimable(db.outbox, now, 0);
    if k < |db.outbox| {
      var row := db.outbox[k];
      SubjectKept(db.outbox, k, row.(lease := Some(token), until := now + ttl, generation := row.generation + 1));
    }
  }

  lemma AcknowledgeSubjects(db: Database, lease: Lease, token: string, now: int)
    ensures Subjects(ApplyAcknowledge(db, lease, token, now).0.outbox) == Subjects(db.outbox)
  {
    if LeaseCurrent(db, lease, token, now) {
      SubjectKept(db.outbox, lease.job - 1, db.outbox[lease.job - 1].(done := true));
    }
  }

  lemma JobSubjects(db: Database, c: Command)
    requires c.ClaimJob? || c.Acknowledge?
    ensures Subjects(Apply(db, c).0.outbox) == Subjects(db.outbox)
  {
    match c
    case ClaimJob(token, now, ttl) => ClaimSubjects(db, token, now, ttl);
    case Acknowledge(lease, token, now) => AcknowledgeSubjects(db, lease, token, now);
  }

  lemma OutboxTouched(db: Database, c: Command)
    requires !c.Assign? && !c.ClaimJob? && !c.Acknowledge?
    ensures Apply(db, c).0.outbox == db.outbox
  {
  }

  /** Orders only gain rows, and rows only change their state. */
  ghost predicate OrdersExtend(orders: map<string, OrderRow>, orders': map<string, OrderRow>) {
    forall o | o in orders :: o in orders' && orders'[o].(state := orders[o].state) == orders[o]
  }

  lemma ExtendPut(orders: map<string, OrderRow>, o: string, row: OrderRow)
    ensures OrdersExtend(orders, orders)
    ensures o !in orders || row.(state := orders[o].state) == orders[o] ==> OrdersExtend(orders, orders[o := row])
  {
  }

  lemma CreateExtends(db: Database, p: Principal, order: string, key: string)
    ensures OrdersExtend(db.orders, ApplyCreateOrder(db, p, order, key).0.orders)
  {
    ExtendPut(db.orders, order, OrderRow(p.tenant, p.account, Created));
  }

  lemma AssignExtends(db: Database, p: Principal, order: string, vehicle: string, key: string, fail: bool)
    ensures OrdersExtend(db.orders, ApplyAssign(db, p, order, vehicle, key, fail).0.orders)
  {
    if order in db.orders {
      ExtendPut(db.orders, order, db.orders[order].(state := Assigned));
    } else {
      assert ApplyAssign(db, p, order, vehicle, key, fail).0 == db;
      ExtendPut(db.orders, order, OrderRow(p.tenant, p.account, Created));
    }
  }

  lemma OrdersOnlyExtend(db: Database, c: Command)
    ensures OrdersExtend(db.orders, Apply(db, c).0.orders)
  {
    match c
    case CreateOrder(p, order, key) => CreateExtends(db, p, order, key);
    case Assign(p, order, vehicle, key, fail) => AssignExtends(db, p, order, vehicle, key, fail);
    case _ => Touched(db, c);
  }

  lemma CreateOrders(db: Database, p: Principal, order: string, key: string)
    requires OrdersWf(db.orders, db.assignments, Subjects(db.outbox))
    ensures var db' := ApplyCreateOrder(db, p, order, key).0;
            OrdersWf(db'.orders, db.assignments, Subjects(db.outbox))
  {
  }

  lemma AssignOrders(db: Database, p: Principal, order: string, vehicle: string, key: string, fail: bool)
    requires OrdersWf(db.orders, db.assignments, Subjects(db.outbox))
    ensures var db' := ApplyAssign(db, p, order, vehicle, key, fail).0;
            OrdersWf(db'.orders, db'.assignments, Subjects(db'.outbox))
  {
    var db' := ApplyAssign(db, p, order, vehicle, key, fail).0;
    if db' != db {
      assert Subjects(db'.outbox) == Subjects(db.outbox) + [order];
      assert forall i | 0 <= i < |db.outbox| :: Subjects(db.outbox)[i] == db.outbox[i].subject;
    }
  }

  lemma OrdersStep(db: Database, c: Command)
    requires OrdersWf(db.orders, db.assignments, Subjects(db.outbox))
    ensures var db' := Apply(db, c).0; OrdersWf(db'.orders, db'.assignments, Subjects(db'.outbox))
  {
    Touched(db, c);
    if c.Assign? {
      AssignOrders(db, c.p, c.order, c.vehicle, c.key, c.failBeforeCommit);
    } else {
      if c.ClaimJob? || c.Acknowledge? { JobSubjects(db, c); } else { OutboxTouched(db, c); }
      if c.CreateOrder? { CreateOrders(db, c.p, c.order, c.key); }
    }
  }

  lemma AssignVehicles(db: Database, p: Principal, order: string, vehicle: string, key: string, fail: bool)
    requires AssignmentsWf(db.orders, db.assignments, db.vehicles)
    ensures var db' := ApplyAssign(db, p, order, vehicle, key, fail).0;
            AssignmentsWf(db'.orders, db'.assignments, db.vehicles)
  {
  }

  lemma AssignmentsStep(db: Database, c: Command)
    requires AssignmentsWf(db.orders, db.assignments, db.vehicles)
    ensures var db' := Apply(db, c).0; AssignmentsWf(db'.orders, db'.assignments, db'.vehicles)
  {
    Touched(db, c);
    if c.Assign? {
      AssignVehicles(db, c.p, c.order, c.vehicle, c.key, c.failBeforeCommit);
    } else {
      OrdersOnlyExtend(db, c);
    }
  }

  lemma PayOrders(db: Database, signed: bool, d: EventData)
    requires PaymentsWf(db.orders, db.payments)
    ensures PaymentsWf(db.orders, ApplyPayment(db, signed, d).0.payments)
  {
  }

  lemma EventAdded(payments: map<string, PaymentRow>, payments': map<string, PaymentRow>,
                   events: map<string, EventData>, d: EventData)
    requires EventsWf(payments, events)
    requires forall q | q in payments :: q in payments' && payments'[q] == payments[q]
    requires d.payment in payments' && payments'[d.payment] == PaymentRow(d.tenant, d.order, d.amount)
    ensures EventsWf(payments', events[d.event := d])
  {
  }

  lemma PayEvents(db: Database, signed: bool, d: EventData)
    requires EventsWf(db.payments, db.events)
    ensures var db' := ApplyPayment(db, signed, d).0; EventsWf(db'.payments, db'.events)
  {
    var db' := ApplyPayment(db, signed, d).0;
    if db' != db {
      var row := PaymentRow(d.tenant, d.order, d.amount);
      if d.payment in db.payments {
        assert db'.payments == db.payments && db.payments[d.payment] == row;
      } else {
        assert db'.payments == db.payments[d.payment := row];
      }
      EventAdded(db.payments, db'.payments, db.events, d);
      assert db'.events == db.events[d.event := d];
    }
  }

  lemma PaymentsStep(db: Database, c: Command)
    requires PaymentsWf(db.orders, db.payments) && EventsWf(db.payments, db.events)
    ensures var db' := Apply(db, c).0;
            PaymentsWf(db'.orders, db'.payments) && EventsWf(db'.payments, db'.events)
  {
    Touched(db, c);
    if c.Payment? {
      PayOrders(db, c.signed, c.data);
      PayEvents(db, c.signed, c.data);
    } else {
      OrdersOnlyExtend(db, c);
    }
  }

  lemma RefundsStep(db: Database, c: Command)
    requires RefundsWf(db.orders, db.refunds)
    ensures var db' := Apply(db, c).0; RefundsWf(db'.orders, db'.refunds)
  {
    Touched(db, c);
    OrdersOnlyExtend(db, c);
  }

  lemma ReserveTables(cap: int, reserved: int, grants: map<string, GrantRow>,
                      reservations: map<string, ReservationRow>, g: string, r: string, units: int)
    requires BudgetWf(cap, reserved, grants, reservations)
    requires r !in reservations && g in grants && !grants[g].used
    requires 0 < units <= grants[g].maxUnits && reserved + units <= cap
    ensures BudgetWf(cap, reserved + units, grants[g := grants[g].(used := true)],
                     reservations[r := ReservationRow(g, units)])
  {
    var grants', reservations' := grants[g := grants[g].(used := true)], reservations[r := ReservationRow(g, units)];
    SumUnitsInsert(reservations, r, ReservationRow(g, units));
    assert r in reservations' && reservations'[r].grant == g;
    forall h | h in grants' && grants'[h].used && h != g
      ensures exists q :: q in reservations' && reservations'[q].grant == h
    {
      var q :| q in reservations && reservations[q].grant == h;
      assert q in reservations' && reservations'[q].grant == h;
    }
  }

  lemma ReserveBudget(db: Database, p: Principal, g: string, r: string,
                      endpoint: string, model: string, units: int, now: int)
    requires BudgetWf(db.cap, db.reserved, db.grants, db.reservations)
    ensures var db' := ApplyReserveAgent(db, p, g, r, endpoint, model, units, now).0;
            BudgetWf(db.cap, db'.reserved, db'.grants, db'.reservations)
  {
    if ApplyReserveAgent(db, p, g, r, endpoint, model, units, now).0 != db {
      ReserveTables(db.cap, db.reserved, db.grants, db.reservations, g, r, units);
    }
  }

  lemma SeedBudget(cap: int, reserved: int, grants: map<string, GrantRow>,
                   reservations: map<string, ReservationRow>, g: string, terms: GrantRow)
    requires BudgetWf(cap, reserved, grants, reservations) && g !in grants && !terms.used
    ensures BudgetWf(cap, reserved, grants[g := terms], reservations)
  {
  }

  lemma BudgetStep(db: Database, c: Command)
    requires BudgetWf(db.cap, db.reserved, db.grants, db.reservations)
    ensures var db' := Apply(db, c).0; BudgetWf(db'.cap, db'.reserved, db'.grants, db'.reservations)
  {
    match c
    case ReserveAgent(p, g, r, endpoint, model, units, now) => ReserveBudget(db, p, g, r, endpoint, model, units, now);
    case SeedGrant(g, terms) =>
      if g !in db.grants { SeedBudget(db.cap, db.reserved, db.grants, db.reservations, g, terms.(used := false)); }
    case _ => BudgetTouched(db, c);
  }

  lemma RequestAudit(db: Database, p: Principal, refund: string, order: string)
    requires AuditWf(db)
    ensures AuditWf(ApplyRequestRefund(db, p, refund, order).0)
  {
    var row := RefundRow(p.tenant, p.account, order, None);
    if refund !in db.refunds { assert Approved(db.refunds[refund := row]) == Approved(db.refunds); }
  }

  lemma ApproveAudit(db: Database, p: Principal, refund: string)
    requires AuditWf(db)
    ensures AuditWf(ApplyApproveRefund(db, p, refund).0)
  {
    var db' := ApplyApproveRefund(db, p, refund).0;
    if db' != db { assert Approved(db'.refunds) == Approved(db.refunds) + {refund}; }
  }

  lemma OrderAudit(db: Database, c: Command)
    requires AuditWf(db) && (c.CreateOrder? || c.Assign?)
    ensures AuditWf(Apply(db, c).0)
  {
    Touched(db, c);
  }

  lemma PaymentAudit(db: Database, signed: bool, d: EventData)
    requires AuditWf(db)
    ensures AuditWf(ApplyPayment(db, signed, d).0)
  {
  }

  lemma ReserveAudit(db: Database, p: Principal, g: string, r: string,
                     endpoint: string, model: string, units: int, now: int)
    requires AuditWf(db)
    ensures AuditWf(ApplyReserveAgent(db, p, g, r, endpoint, model, units, now).0)
  {
  }

  lemma QuietAudit(db: Database, c: Command)
    requires c.ClaimJob? || c.Acknowledge? || c.SeedVehicle? || c.SeedGrant?
    ensures Apply(db, c).0.audit == db.audit
  {
  }

  lemma AuditStep(db: Database, c: Command)
    requires AuditWf(db)
    ensures AuditWf(Apply(db, c).0)
  {
    match c
    case RequestRefund(p, refund, order) => RequestAudit(db, p, refund, order);
    case ApproveRefund(p, refund) => ApproveAudit(db, p, refund);
    case CreateOrder(_, _, _) => OrderAudit(db, c);
    case Assign(_, _, _, _, _) => OrderAudit(db, c);
    case Payment(signed, d) => PaymentAudit(db, signed, d);
    case ReserveAgent(p, g, r, endpoint, model, units, now) => ReserveAudit(db, p, g, r, endpoint, model, units, now);
    case _ =>
      QuietAudit(db, c);
      Touched(db, c);
      BudgetTouched(db, c);
  }

  /** Every command keeps the whole store consistent. */
  lemma StepWf(db: Database, c: Command)
    requires Wf(db)
    ensures Wf(Apply(db, c).0)
  {
    OrdersStep(db, c);
    AssignmentsStep(db, c);
    PaymentsStep(db, c);
    RefundsStep(db, c);
    BudgetStep(db, c);
    AuditStep(db, c);
  }

  /** Store-wide conservation: after any run of commands from an initialised store. */
  lemma {:induction false} RunWf(cap: int, cs: seq<Command>)
    requires cap >= 0
    ensures Wf(Run(Empty(cap), cs))
  {
    if cs == [] {
      EmptyWf(cap);
    } else {
      RunWf(cap, cs[..|cs| - 1]);
      StepWf(Run(Empty(cap), cs[..|cs| - 1]), cs[|cs| - 1]);
    }
  }
}
