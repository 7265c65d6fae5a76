/** When each command of the reference store is accepted, what it is refused as, and the
    rows it writes, said of the tables alone. */
module ReferenceAnswers {
  import opened Wrappers
  import opened ReferenceModel
  import opened ReferenceRuns

  /** A command that was remembered under this key with this body. */
  predicate Remembered(db: Database, k: CommandKey, payload: Payload) {
    k in db.commands && db.commands[k].fingerprint == payload && db.commands[k].result != ""
  }

  lemma ReplayExactly(db: Database, k: CommandKey, payload: Payload)
    ensures var r := Replay(db, k, payload);
            && (r == Err(IdempotencyRequired) <==> k.key == "")
            && (r == Err(IdempotencyConflict) <==> k.key != "" && k in db.commands && db.commands[k].fingerprint != payload)
            && (r.Ok? && r.value.Some? && r.value.value != "" <==> k.key != "" && Remembered(db, k, payload))
            && (r.Ok? && r.value.Some? ==> k in db.commands && r.value.value == db.commands[k].result)
            && (r.Ok? && r.value.None? <==> k.key != "" && k !in db.commands)
  {
  }

  // ------------------------------------------------------------- orders

  /** An order is created exactly by a customer under a new key, for a new order id; under a
      known key its command is answered again exactly when it is the same. */
  lemma CreatedExactly(db: Database, p: Principal, order: string, key: string)
    ensures var k, (db', r) := CommandKey(p.tenant, p.account, CreateAction, key), Apply(db, CreateOrder(p, order, key));
            && (r.Accepted? <==>
                  && p.role == Customer && key != ""
                  && (Remembered(db, k, OrderPayload(order)) || (k !in db.commands && order !in db.orders)))
            && (r == Rejected(Forbidden) <==> p.role != Customer)
            && (r == Rejected(IdempotencyRequired) <==> p.role == Customer && key == "")
            && (r == Rejected(IdempotencyConflict) <==>
                  p.role == Customer && key != "" && k in db.commands && db.commands[k].fingerprint != OrderPayload(order))
  {
    ReplayExactly(db, CommandKey(p.tenant, p.account, CreateAction, key), OrderPayload(order));
  }

  lemma CreatedWrites(db: Database, p: Principal, order: string, key: string)
    requires Apply(db, CreateOrder(p, order, key)).1.Accepted?
    ensures var k, (db', r) := CommandKey(p.tenant, p.account, CreateAction, key), Apply(db, CreateOrder(p, order, key));
            if k in db.commands then db' == db && r == Accepted(db.commands[k].result)
            else
              && r == Accepted(order)
              && db'.orders == db.orders[order := OrderRow(p.tenant, p.account, Created)]
              && db'.commands == db.commands[k := CommandRow(OrderPayload(order), order)]
              && db'.audit == db.audit + [AuditRow(p.tenant, p.account, OrderCreated, order)]
  {
  }

  /** The order and the vehicle are the dispatcher's tenant's, free and fit for each other. */
  predicate MayAssign(db: Database, p: Principal, order: string, vehicle: string) {
    && order in db.orders && db.orders[order].tenant == p.tenant && db.orders[order].state == Created
    && vehicle in db.vehicles && db.vehicles[vehicle].tenant == p.tenant && db.vehicles[vehicle].eligible
  }

  /** Neither is placed, and no job waits for the order. */
  predicate Unplaced(db: Database, order: string, vehicle: string) {
    && order !in db.assignments && (forall o | o in db.assignments :: db.assignments[o].vehicle != vehicle)
    && (forall i | 0 <= i < |db.outbox| :: db.outbox[i].subject != order)
  }

  lemma UnplacedMeans(db: Database, order: string, vehicle: string)
    ensures Unplaced(db, order, vehicle) <==>
              order !in db.assignments && !VehicleTaken(db.assignments, vehicle) && !Queued(db.outbox, order)
  {
  }

  /** An order is assigned exactly by a dispatcher of its tenant under a new key, uninterrupted,
      to a free and eligible vehicle of that tenant. */
  lemma AssignedExactly(db: Database, p: Principal, order: string, vehicle: string, key: string, fail: bool)
    ensures var k, (db', r) := CommandKey(p.tenant, p.account, AssignAction, key),
                               Apply(db, Assign(p, order, vehicle, key, fail));
            && (r.Accepted? <==>
                  && p.role == Dispatcher && key != ""
                  && (Remembered(db, k, AssignPayload(order, vehicle))
                      || (k !in db.commands && MayAssign(db, p, order, vehicle) && Unplaced(db, order, vehicle) && !fail)))
            && (r == Rejected(Forbidden) <==> p.role != Dispatcher)
            && (r == Rejected(IdempotencyRequired) <==> p.role == Dispatcher && key == "")
            && (r == Rejected(IdempotencyConflict) <==>
                  && p.role == Dispatcher && key != "" && k in db.commands
                  && db.commands[k].fingerprint != AssignPayload(order, vehicle))
            && (k !in db.commands ==>
                  && (r == Rejected(Ineligible) <==> p.role == Dispatcher && key != "" && !MayAssign(db, p, order, vehicle))
                  && (r == Rejected(InjectedInterruption) <==>
                        && p.role == Dispatcher && key != "" && MayAssign(db, p, order, vehicle)
                        && Unplaced(db, order, vehicle) && fail))
  {
    ReplayExactly(db, CommandKey(p.tenant, p.account, AssignAction, key), AssignPayload(order, vehicle));
    UnplacedMeans(db, order, vehicle);
  }

  lemma AssignedWrites(db: Database, p: Principal, order: string, vehicle: string, key: string, fail: bool)
    requires Apply(db, Assign(p, order, vehicle, key, fail)).1.Accepted?
    ensures var k, (db', r) := CommandKey(p.tenant, p.account, AssignAction, key),
                               Apply(db, Assign(p, order, vehicle, key, fail));
            if k in db.commands then db' == db && r == Accepted(db.commands[k].result)
            else
              && r == Accepted(order) && vehicle in db.vehicles && order in db.orders
              && db'.assignments == db.assignments[order := AssignmentRow(vehicle, db.vehicles[vehicle].vendor)]
              && db'.orders == db.orders[order := OrderRow(db.orders[order].tenant, db.orders[order].customer, Assigned)]
              && db'.outbox == db.outbox + [OutboxRow(order, None, 0, false, 0)]
              && db'.commands == db.commands[k := CommandRow(AssignPayload(order, vehicle), order)]
              && db'.audit == db.audit + [AuditRow(p.tenant, p.account, OrderAssigned, order)]
  {
  }

  // ------------------------------------------------------------- jobs

  /** Neither done nor under a lease that still runs. */
  predicate Waiting(row: OutboxRow, now: int) {
    !row.done && (row.lease.None? || row.until <= now)
  }

  /** A claim leases the lowest waiting job, under its next generation, until ttl from now. */
  lemma ClaimedExactly(db: Database, token: string, now: int, ttl: int, j: nat, generation: nat)
    ensures var (db', r) := Apply(db, ClaimJob(token, now, ttl));
            && (r == Leased(Some(Lease(j, generation))) <==>
                  && token != "" && 1 <= ttl <= 5 && 1 <= j <= |db.outbox| && Waiting(db.outbox[j - 1], now)
                  && (forall i | 0 <= i < j - 1 :: !Waiting(db.outbox[i], now))
                  && generation == db.outbox[j - 1].generation + 1)
            && (r == Leased(Some(Lease(j, generation))) ==>
                  db'.outbox == db.outbox[j - 1 := OutboxRow(db.outbox[j - 1].subject, Some(token), now + ttl, false, generation)])
            && (r == Leased(None) <==>
                  token != "" && 1 <= ttl <= 5 && forall i | 0 <= i < |db.outbox| :: !Waiting(db.outbox[i], now))
            && (r == Rejected(LeaseRejected) <==> token == "" || ttl < 1 || 5 < ttl)
  {
    var k := FirstClaimable(db.outbox, now, 0);
    forall i | 0 <= i < |db.outbox| ensures Waiting(db.outbox[i], now) <==> Claimable(db.outbox[i], now) {}
  }

  /** A job is acknowledged exactly by the holder of its newest lease while that runs. */
  lemma AcknowledgedExactly(db: Database, lease: Lease, token: string, now: int)
    ensures var (db', r) := Apply(db, Acknowledge(lease, token, now));
            && (r.Accepted? <==>
                  && 1 <= lease.job <= |db.outbox|
                  && var row := db.outbox[lease.job - 1];
                     row.generation == lease.generation && row.lease == Some(token) && now < row.until && !row.done)
            && (!r.Accepted? ==> r == Rejected(StaleLease) && db' == db)
            && (r.Accepted? ==> db'.outbox == db.outbox[lease.job - 1 := db.outbox[lease.job - 1].(done := true)])
  {
  }

  // ------------------------------------------------------------- money

  /** A payment event is accepted exactly when it is signed, positive, and either known as it
      is, or new and about an order of its tenant that this very payment pays already or that
      nothing pays yet. */
  lemma PaidExactly(db: Database, signed: bool, d: EventData)
    ensures var r := Apply(db, Payment(signed, d)).1;
            var row := PaymentRow(d.tenant, d.order, d.amount);
            var ours := d.order in db.orders && db.orders[d.order].tenant == d.tenant;
            var novel := signed && d.amount > 0 && d.event !in db.events;
            && (r.Accepted? <==>
                  || (signed && d.amount > 0 && d.event in db.events && db.events[d.event] == d)
                  || (novel && ours && d.payment in db.payments && db.payments[d.payment] == row)
                  || (novel && ours && d.payment !in db.payments
                      && forall q | q in db.payments :: db.payments[q].order != d.order))
            && (r == Rejected(BadSignature) <==> !signed)
            && (r == Rejected(BadAmount) <==> signed && d.amount <= 0)
            && (r == Rejected(EventConflict) <==> signed && d.amount > 0 && d.event in db.events && db.events[d.event] != d)
            && (r == Rejected(UnknownOrder) <==> novel && !ours)
            && (r == Rejected(PaymentConflict) <==> novel && ours && d.payment in db.payments && db.payments[d.payment] != row)
  {
    assert OrderPaid(db.payments, d.order) <==> exists q | q in db.payments :: db.payments[q].order == d.order;
  }

  lemma PaidWrites(db: Database, signed: bool, d: EventData)
    requires Apply(db, Payment(signed, d)).1.Accepted?
    ensures var db' := Apply(db, Payment(signed, d)).0;
            var row := PaymentRow(d.tenant, d.order, d.amount);
            if d.event in db.events then db' == db
            else
              && db'.events == db.events[d.event := d] && d.payment in db'.payments && db'.payments[d.payment] == row
              && db'.payments - {d.payment} == db.payments - {d.payment}
              && db'.audit == db.audit + (if d.payment in db.payments then []
                                          else [AuditRow(d.tenant, "synthetic-webhook", PaymentRecorded, d.order)])
  {
  }

  /** A refund is requested exactly by the customer of the order, in its tenant, under a new
      id, or again as it was. */
  lemma RequestedExactly(db: Database, p: Principal, refund: string, order: string)
    ensures var (db', r) := Apply(db, RequestRefund(p, refund, order));
            var own := order in db.orders && db.orders[order].tenant == p.tenant && db.orders[order].customer == p.account;
            var again := refund in db.refunds && db.refunds[refund].tenant == p.tenant
                         && db.refunds[refund].requester == p.account && db.refunds[refund].order == order;
            && (r.Accepted? <==> p.role == Customer && own && (refund !in db.refunds || again))
            && (r == Rejected(Forbidden) <==> p.role != Customer)
            && (r == Rejected(NotFound) <==> p.role == Customer && !own)
            && (r == Rejected(Conflict) <==> p.role == Customer && own && refund in db.refunds && !again)
            && (r.Accepted? && refund !in db.refunds ==>
                  && db'.refunds == db.refunds[refund := RefundRow(p.tenant, p.account, order, None)]
                  && db'.audit == db.audit + [AuditRow(p.tenant, p.account, RefundRequested, refund)])
            && (refund in db.refunds ==> db' == db)
  {
  }

  /** It is approved exactly by a human administrator of its tenant other than its requester,
      and by nobody else afterwards. */
  lemma ApprovedExactly(db: Database, p: Principal, refund: string)
    ensures var (db', r) := Apply(db, ApproveRefund(p, refund));
            var theirs := refund in db.refunds && db.refunds[refund].tenant == p.tenant
                          && db.refunds[refund].requester != p.account;
            && (r.Accepted? <==>
                  && p.role == HumanAdmin && theirs
                  && (db.refunds[refund].approvedBy.None? || db.refunds[refund].approvedBy.value == p.account))
            && (r == Rejected(ManualApprovalRequired) <==> p.role != HumanAdmin)
            && (r == Rejected(SelfApprovalDenied) <==> p.role == HumanAdmin && !theirs)
            && (r == Rejected(Conflict) <==>
                  && p.role == HumanAdmin && theirs && db.refunds[refund].approvedBy.Some?
                  && db.refunds[refund].approvedBy.value != p.account)
            && (r.Accepted? && db.refunds[refund].approvedBy.None? ==>
                  && db'.refunds == db.refunds[refund := RefundRow(db.refunds[refund].tenant, db.refunds[refund].requester,
                                                                   db.refunds[refund].order, Some(p.account))]
                  && db'.audit == db.audit + [AuditRow(p.tenant, p.account, RefundApproved, refund)])
  {
  }

  /** The grant is this agent's, for this endpoint and model, unexpired and large enough. */
  predicate Covered(db: Database, p: Principal, grant: string, endpoint: string, model: string, units: int, now: int) {
    && grant in db.grants
    && db.grants[grant].tenant == p.tenant && db.grants[grant].agent == p.account
    && db.grants[grant].endpoint == endpoint && db.grants[grant].model == model
    && now < db.grants[grant].expires && units <= db.grants[grant].maxUnits
  }

  predicate Unreserved(db: Database, grant: string) {
    grant in db.grants && !db.grants[grant].used && forall r | r in db.reservations :: db.reservations[r].grant != grant
  }

  /** Budget is reserved exactly by an agent with a covering, unused grant, within the cap. */
  lemma ReservedExactly(db: Database, p: Principal, grant: string, reservation: string, endpoint: string, model: string,
                        units: int, now: int)
    ensures var r := Apply(db, ReserveAgent(p, grant, reservation, endpoint, model, units, now)).1;
            var covered := p.role == Agent && 0 < units && Covered(db, p, grant, endpoint, model, units, now);
            && (r.Accepted? <==>
                  && covered
                  && if reservation in db.reservations then db.reservations[reservation] == ReservationRow(grant, units)
                     else Unreserved(db, grant) && db.reserved + units <= db.cap)
            && (r == Rejected(Forbidden) <==> p.role != Agent || units <= 0)
            && (r == Rejected(GrantRejected) <==>
                  p.role == Agent && 0 < units && !Covered(db, p, grant, endpoint, model, units, now))
            && (r == Rejected(GrantConsumed) <==> covered && reservation !in db.reservations && db.grants[grant].used)
            && (r == Rejected(BudgetExceeded) <==>
                  covered && reservation !in db.reservations && !db.grants[grant].used && db.cap < db.reserved + units)
  {
    assert GrantReserved(db.reservations, grant) <==>
             exists r | r in db.reservations :: db.reservations[r].grant == grant;
  }

  lemma ReservedWrites(db: Database, p: Principal, grant: string, reservation: string, endpoint: string, model: string,
                       units: int, now: int)
    requires Apply(db, ReserveAgent(p, grant, reservation, endpoint, model, units, now)).1.Accepted?
    ensures var db' := Apply(db, ReserveAgent(p, grant, reservation, endpoint, model, units, now)).0;
            if reservation in db.reservations then db' == db
            else
              && grant in db.grants && grant in db'.grants
              && db'.reserved == db.reserved + units
              && db'.reservations == db.reservations[reservation := ReservationRow(grant, units)]
              && db'.grants[grant].used && db'.grants - {grant} == db.grants - {grant}
              && db'.audit == db.audit + [AuditRow(p.tenant, p.account, AgentReserved, reservation)]
  {
  }

  // ------------------------------------------------------------- the customer of an order

  /** An order that was created under a key belongs to the account that created it. */
  predicate CreatorsOwn(db: Database) {
    forall k | k in db.commands && k.action == CreateAction && db.commands[k].fingerprint.OrderPayload? ::
      Owns(db, k.tenant, k.actor, db.commands[k].fingerprint.order)
  }

  predicate Owns(db: Database, tenant: string, account: string, order: string) {
    order in db.orders && db.orders[order].tenant == tenant && db.orders[order].customer == account
  }

  lemma OwnsGrows(db: Database, db': Database, tenant: string, account: string, order: string)
    requires Grows(db, db') && Owns(db, tenant, account, order)
    ensures Owns(db', tenant, account, order)
  {
  }

  lemma CommandsStep(db: Database, c: Command, k: CommandKey)
    requires k in Apply(db, c).0.commands && k !in db.commands && k.action == CreateAction
    ensures c.CreateOrder? && k.tenant == c.p.tenant && k.actor == c.p.account
    ensures Apply(db, c).0.commands[k].fingerprint == OrderPayload(c.order)
    ensures Owns(Apply(db, c).0, c.p.tenant, c.p.account, c.order)
  {
  }

  lemma CreatorsStep(db: Database, c: Command)
    requires CreatorsOwn(db)
    ensures CreatorsOwn(Apply(db, c).0)
  {
    var db' := Apply(db, c).0;
    StepGrows(db, c);
    forall k | k in db'.commands && k.action == CreateAction && db'.commands[k].fingerprint.OrderPayload?
      ensures Owns(db', k.tenant, k.actor, db'.commands[k].fingerprint.order)
    {
      if k in db.commands {
        OwnsGrows(db, db', k.tenant, k.actor, db.commands[k].fingerprint.order);
      } else {
        CommandsStep(db, c, k);
      }
    }
  }

  lemma {:induction false} CreatorsRun(db: Database, cs: seq<Command>)
    requires CreatorsOwn(db)
    ensures CreatorsOwn(Run(db, cs))
  {
    if cs != [] {
      CreatorsRun(db, cs[..|cs| - 1]);
      CreatorsStep(Run(db, cs[..|cs| - 1]), cs[|cs| - 1]);
    }
  }

  lemma AcceptedOwns(db: Database, p: Principal, order: string, key: string)
    requires CreatorsOwn(db) && Apply(db, CreateOrder(p, order, key)).1.Accepted?
    ensures Owns(Apply(db, CreateOrder(p, order, key)).0, p.tenant, p.account, order) && p.role == Customer
  {
    CreatedExactly(db, p, order, key);
    CreatedWrites(db, p, order, key);
    var k := CommandKey(p.tenant, p.account, CreateAction, key);
    if k in db.commands { assert db.commands[k].fingerprint == OrderPayload(order); }
  }

  /** After an accepted creation, first or replayed, and whatever happened since, its
      principal can request a refund of the order under any id that is not taken. */
  lemma CreatorMayRequestRefund(cap: int, before: seq<Command>, p: Principal, order: string, key: string,
                                later: seq<Command>, refund: string)
    requires Apply(Run(Empty(cap), before), CreateOrder(p, order, key)).1.Accepted?
    requires var now := Run(Apply(Run(Empty(cap), before), CreateOrder(p, order, key)).0, later); refund !in now.refunds
    ensures var now := Run(Apply(Run(Empty(cap), before), CreateOrder(p, order, key)).0, later);
            Apply(now, RequestRefund(p, refund, order)).1 == Accepted("")
  {
    var made := Apply(Run(Empty(cap), before), CreateOrder(p, order, key)).0;
    CreatorsRun(Empty(cap), before);
    AcceptedOwns(Run(Empty(cap), before), p, order, key);
    RunGrows(made, later);
    OwnsGrows(made, Run(made, later), p.tenant, p.account, order);
  }
}
