/** The transactional reference store: its tables, and every command as one
    atomic transaction that either commits or leaves the tables as they were. */
module ReferenceModel {
  import opened Wrappers

  datatype Role = Customer | Vendor | Dispatcher | HumanAdmin | Agent | OtherRole

  datatype Principal = Principal(tenant: string, account: string, role: Role)

  datatype OrderState = Created | Assigned

  datatype OrderRow = OrderRow(tenant: string, customer: string, state: OrderState)

  datatype VehicleRow = VehicleRow(tenant: string, vendor: string, eligible: bool)

  datatype AssignmentRow = AssignmentRow(vehicle: string, vendor: string)

  datatype Action = CreateAction | AssignAction

  datatype CommandKey = CommandKey(tenant: string, actor: string, action: Action, key: string)

  /** A request body; the stored fingerprint is its injective image, so the body. */
  datatype Payload = OrderPayload(order: string) | AssignPayload(order: string, vehicle: string)

  datatype CommandRow = CommandRow(fingerprint: Payload, result: string)

  datatype AuditAction =
    OrderCreated | OrderAssigned | PaymentRecorded | RefundRequested | RefundApproved | AgentReserved

  datatype AuditRow = AuditRow(tenant: string, actor: string, action: AuditAction, subject: string)

  datatype OutboxRow = OutboxRow(subject: string, lease: Option<string>, until: int, done: bool, generation: nat)

  datatype PaymentRow = PaymentRow(tenant: string, order: string, amount: int)

  datatype EventData = EventData(event: string, payment: string, tenant: string, order: string, amount: int)

  datatype RefundRow = RefundRow(tenant: string, requester: string, order: string, approvedBy: Option<string>)

  datatype GrantRow = GrantRow(
    tenant: string, agent: string, endpoint: string, model: string, expires: int, maxUnits: int, used: bool)

  datatype ReservationRow = ReservationRow(grant: string, units: int)

  /** Outbox ids are the positions plus one: rows are never deleted. */
  datatype Database = Database(
    orders: map<string, OrderRow>,
    vehicles: map<string, VehicleRow>,
    assignments: map<string, AssignmentRow>,
    commands: map<CommandKey, CommandRow>,
    audit: seq<AuditRow>,
    outbox: seq<OutboxRow>,
    payments: map<string, PaymentRow>,
    events: map<string, EventData>,
    refunds: map<string, RefundRow>,
    cap: int,
    reserved: int,
    grants: map<string, GrantRow>,
    reservations: map<string, ReservationRow>)

  datatype Lease = Lease(job: nat, generation: nat)

  datatype Code =
    | Forbidden | IdempotencyRequired | IdempotencyConflict | Conflict | Ineligible | InjectedInterruption
    | LeaseRejected | StaleLease | BadSignature | BadAmount | EventConflict | UnknownOrder | PaymentConflict
    | NotFound | ManualApprovalRequired | SelfApprovalDenied | GrantRejected | GrantConsumed | BudgetExceeded

  datatype Reply = Accepted(result: string) | Leased(lease: Option<Lease>) | Rejected(code: Code)

  datatype Command =
    | SeedVehicle(vehicle: string, row: VehicleRow)
    | SeedGrant(grant: string, terms: GrantRow)
    | CreateOrder(p: Principal, order: string, key: string)
    | Assign(p: Principal, order: string, vehicle: string, key: string, failBeforeCommit: bool)
    | ClaimJob(token: string, now: int, ttl: int)
    | Acknowledge(lease: Lease, token: string, now: int)
    | Payment(signed: bool, data: EventData)
    | RequestRefund(p: Principal, refund: string, order: string)
    | ApproveRefund(p: Principal, refund: string)
    | ReserveAgent(p: Principal, grant: string, reservation: string, endpoint: string, model: string,
                   units: int, now: int)

  function Empty(cap: int): Database {
    Database(map[], map[], map[], map[], [], [], map[], map[], map[], cap, 0, map[], map[])
  }

  function Audited(db: Database, p: Principal, action: AuditAction, subject: string): Database {
    db.(audit := db.audit + [AuditRow(p.tenant, p.account, action, subject)])
  }

  /** The stored answer of a command, or the reason it may not be answered. */
  function Replay(db: Database, k: CommandKey, payload: Payload): Result<Option<string>, Code> {
    if k.key == "" then Err(IdempotencyRequired)
    else if k !in db.commands then Ok(None)
    else if db.commands[k].fingerprint != payload then Err(IdempotencyConflict)
    else Ok(Some(db.commands[k].result))
  }

  function ApplyCreateOrder(db: Database, p: Principal, order: string, key: string): (r: (Database, Reply))
    ensures r.0 == db.(orders := r.0.orders, audit := r.0.audit, commands := r.0.commands)
  {
    var k := CommandKey(p.tenant, p.account, CreateAction, key);
    if p.role != Customer then (db, Rejected(Forbidden))
    else match Replay(db, k, OrderPayload(order))
         case Err(code) => (db, Rejected(code))
         case Ok(previous) =>
           if previous.Some? && previous.value != "" then (db, Accepted(previous.value))
           else if order in db.orders || k in db.commands then (db, Rejected(Conflict))
           else
             var inserted := db.(orders := db.orders[order := OrderRow(p.tenant, p.account, Created)]);
             (Audited(inserted, p, OrderCreated, order)
              .(commands := db.commands[k := CommandRow(OrderPayload(order), order)]), Accepted(order))
  }

  predicate VehicleTaken(assignments: map<string, AssignmentRow>, vehicle: string) {
    exists o | o in assignments :: assignments[o].vehicle == vehicle
  }

  predicate Queued(outbox: seq<OutboxRow>, subject: string) {
    exists i | 0 <= i < |outbox| :: outbox[i].subject == subject
  }

  predicate AssignEligible(db: Database, p: Principal, order: string, vehicle: string) {
    && order in db.orders && db.orders[order].tenant == p.tenant
    && vehicle in db.vehicles && db.vehicles[vehicle].tenant == p.tenant
    && db.orders[order].state == Created && db.vehicles[vehicle].eligible
  }

  function ApplyAssign(db: Database, p: Principal, order: string, vehicle: string, key: string, fail: bool)
    : (r: (Database, Reply))
    ensures r.0 == db.(assignments := r.0.assignments, orders := r.0.orders, audit := r.0.audit,
                       outbox := r.0.outbox, commands := r.0.commands)
  {
    var k := CommandKey(p.tenant, p.account, AssignAction, key);
    if p.role != Dispatcher then (db, Rejected(Forbidden))
    else match Replay(db, k, AssignPayload(order, vehicle))
         case Err(code) => (db, Rejected(code))
         case Ok(previous) =>
           if previous.Some? && previous.value != "" then (db, Accepted(previous.value))
           else if !AssignEligible(db, p, order, vehicle) then (db, Rejected(Ineligible))
           else if order in db.assignments || VehicleTaken(db.assignments, vehicle) then (db, Rejected(Conflict))
           else if Queued(db.outbox, order) then (db, Rejected(Conflict))
           else if fail then (db, Rejected(InjectedInterruption))
           else if k in db.commands then (db, Rejected(Conflict))
           else
             var placed := db.(
               assignments := db.assignments[order := AssignmentRow(vehicle, db.vehicles[vehicle].vendor)],
               orders := db.orders[order := db.orders[order].(state := Assigned)]);
             (Audited(placed, p, OrderAssigned, order).(
                outbox := db.outbox + [OutboxRow(order, None, 0, false, 0)],
                commands := db.commands[k := CommandRow(AssignPayload(order, vehicle), order)]),
              Accepted(order))
  }

  predicate Claimable(row: OutboxRow, now: int) {
    !row.done && (row.lease.None? || row.until <= now)
  }

  /** The lowest claimable position at or after i, or the end. */
  function FirstClaimable(outbox: seq<OutboxRow>, now: int, i: nat): (k: nat)
    requires i <= |outbox|
    ensures i <= k <= |outbox|
    ensures k < |outbox| ==> Claimable(outbox[k], now)
    ensures forall j | i <= j < k :: !Claimable(outbox[j], now)
    decreases |outbox| - i
  {
    if i == |outbox| || Claimable(outbox[i], now) then i else FirstClaimable(outbox, now, i + 1)
  }

  function ApplyClaim(db: Database, token: string, now: int, ttl: int): (r: (Database, Reply))
    ensures r.0 == db.(outbox := r.0.outbox)
  {
    if token == "" || !(0 < ttl <= 5) then (db, Rejected(LeaseRejected))
    else
      var k := FirstClaimable(db.outbox, now, 0);
      if k == |db.outbox| then (db, Leased(None))
      else
        var row := db.outbox[k];
        (db.(outbox := db.outbox[k := row.(lease := Some(token), until := now + ttl, generation := row.generation + 1)]),
         Leased(Some(Lease(k + 1, row.generation + 1))))
  }

  predicate LeaseCurrent(db: Database, lease: Lease, token: string, now: int) {
    && 1 <= lease.job <= |db.outbox|
    && var row := db.outbox[lease.job - 1];
       row.generation == lease.generation && row.lease == Some(token) && row.until > now && !row.done
  }

  function ApplyAcknowledge(db: Database, lease: Lease, token: string, now: int): (r: (Database, Reply))
    ensures r.0 == db.(outbox := r.0.outbox)
  {
    if !LeaseCurrent(db, lease, token, now) then (db, Rejected(StaleLease))
    else
      (db.(outbox := db.outbox[lease.job - 1 := db.outbox[lease.job - 1].(done := true)]), Accepted(""))
  }

  predicate OrderPaid(payments: map<string, PaymentRow>, order: string) {
    exists q | q in payments :: payments[q].order == order
  }

  const Webhook: string := "synthetic-webhook"

  function ApplyPayment(db: Database, signed: bool, d: EventData): (r: (Database, Reply))
    ensures r.0 == db.(payments := r.0.payments, audit := r.0.audit, events := r.0.events)
  {
    var row := PaymentRow(d.tenant, d.order, d.amount);
    if !signed then (db, Rejected(BadSignature))
    else if d.amount <= 0 then (db, Rejected(BadAmount))
    else if d.event in db.events then
      (db, if db.events[d.event] == d then Accepted("") else Rejected(EventConflict))
    else if d.order !in db.orders || db.orders[d.order].tenant != d.tenant then (db, Rejected(UnknownOrder))
    else if d.payment in db.payments then
      if db.payments[d.payment] != row then (db, Rejected(PaymentConflict))
      else (db.(events := db.events[d.event := d]), Accepted(""))
    else if OrderPaid(db.payments, d.order) then (db, Rejected(Conflict))
    else
      var paid := db.(payments := db.payments[d.payment := row]);
      (Audited(paid, Principal(d.tenant, Webhook, OtherRole), PaymentRecorded, d.order)
       .(events := db.events[d.event := d]), Accepted(""))
  }

  function ApplyRequestRefund(db: Database, p: Principal, refund: string, order: string): (r: (Database, Reply))
    ensures r.0 == db.(refunds := r.0.refunds, audit := r.0.audit)
  {
    var row := RefundRow(p.tenant, p.account, order, None);
    if p.role != Customer then (db, Rejected(Forbidden))
    else if !(order in db.orders && db.orders[order].tenant == p.tenant && db.orders[order].customer == p.account) then
      (db, Rejected(NotFound))
    else if refund in db.refunds then
      (db, if db.refunds[refund].(approvedBy := None) == row then Accepted("") else Rejected(Conflict))
    else
      (Audited(db.(refunds := db.refunds[refund := row]), p, RefundRequested, refund), Accepted(""))
  }

  function ApplyApproveRefund(db: Database, p: Principal, refund: string): (r: (Database, Reply))
    ensures r.0 == db.(refunds := r.0.refunds, audit := r.0.audit)
  {
    if p.role != HumanAdmin then (db, Rejected(ManualApprovalRequired))
    else if !(refund in db.refunds && db.refunds[refund].tenant == p.tenant
              && db.refunds[refund].requester != p.account) then (db, Rejected(SelfApprovalDenied))
    else if db.refunds[refund].approvedBy.Some? then
      (db, if db.refunds[refund].approvedBy == Some(p.account) then Accepted("") else Rejected(Conflict))
    else
      var approved := db.refunds[refund].(approvedBy := Some(p.account));
      (Audited(db.(refunds := db.refunds[refund := approved]), p, RefundApproved, refund), Accepted(""))
  }

  predicate GrantCovers(g: GrantRow, p: Principal, endpoint: string, model: string, units: int, now: int) {
    && g.tenant == p.tenant && g.agent == p.account && g.endpoint == endpoint && g.model == model
    && now < g.expires && units <= g.maxUnits
  }

  predicate GrantReserved(reservations: map<string, ReservationRow>, grant: string) {
    exists r | r in reservations :: reservations[r].grant == grant
  }

  function ApplyReserveAgent(db: Database, p: Principal, grant: string, reservation: string,
                             endpoint: string, model: string, units: int, now: int): (r: (Database, Reply))
    ensures r.0 == db.(reserved := r.0.reserved, reservations := r.0.reservations, grants := r.0.grants,
                       audit := r.0.audit)
  {
    var row := ReservationRow(grant, units);
    if p.role != Agent || units <= 0 then (db, Rejected(Forbidden))
    else if grant !in db.grants || !GrantCovers(db.grants[grant], p, endpoint, model, units, now) then
      (db, Rejected(GrantRejected))
    else if reservation in db.reservations then
      (db, if db.reservations[reservation] == row then Accepted("") else Rejected(Conflict))
    else if db.grants[grant].used then (db, Rejected(GrantConsumed))
    else if db.reserved + units > db.cap then (db, Rejected(BudgetExceeded))
    else if GrantReserved(db.reservations, grant) then (db, Rejected(Conflict))
    else
      (Audited(db.(reserved := db.reserved + units,
                   reservations := db.reservations[reservation := row],
                   grants := db.grants[grant := db.grants[grant].(used := true)]),
               p, AgentReserved, reservation), Accepted(""))
  }

  function Apply(db: Database, c: Command): (Database, Reply) {
    match c
    case SeedVehicle(v, row) =>
      if v in db.vehicles then (db, Rejected(Conflict)) else (db.(vehicles := db.vehicles[v := row]), Accepted(""))
    case SeedGrant(g, terms) =>
      if g in db.grants then (db, Rejected(Conflict))
      else (db.(grants := db.grants[g := terms.(used := false)]), Accepted(""))
    case CreateOrder(p, order, key) => ApplyCreateOrder(db, p, order, key)
    case Assign(p, order, vehicle, key, fail) => ApplyAssign(db, p, order, vehicle, key, fail)
    case ClaimJob(token, now, ttl) => ApplyClaim(db, token, now, ttl)
    case Acknowledge(lease, token, now) => ApplyAcknowledge(db, lease, token, now)
    case Payment(signed, data) => ApplyPayment(db, signed, data)
    case RequestRefund(p, refund, order) => ApplyRequestRefund(db, p, refund, order)
    case ApproveRefund(p, refund) => ApplyApproveRefund(db, p, refund)
    case ReserveAgent(p, g, r, endpoint, model, units, now) =>
      ApplyReserveAgent(db, p, g, r, endpoint, model, units, now)
  }

  /** The tables after a run of commands. */
  function Run(db: Database, cs: seq<Command>): Database {
    if cs == [] then db else Apply(Run(db, cs[..|cs| - 1]), cs[|cs| - 1]).0
  }
}
