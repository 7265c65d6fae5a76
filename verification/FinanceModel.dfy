/** The finance tables of one platform and every finance command as one transaction.
    A receipt is identified by its provider event, a gateway event by its receipt, a
    refund request by its idempotency key and an execution by its request; amounts
    are integral minor units. */
module FinanceModel {
  import opened Wrappers

  datatype OrderRow = OrderRow(creator: string, customer: Option<string>, vendorAccount: Option<string>)

  /** What a receipt preserves of a gateway event. */
  datatype Event = Event(
    kind: string, reference: Option<string>, refund: Option<string>, amount: Option<int>, currency: Option<string>)

  datatype GatewayRow = GatewayRow(order: string, kind: string, money: Money)

  datatype ProjectionKey = ProjectionKey(order: string, event: string, status: string)

  datatype Money = Money(amount: int, currency: string)

  datatype FinancialRow = FinancialRow(money: Money, requester: string)

  datatype IntentRow = IntentRow(order: string, money: Money)

  datatype RefundStatus = Requested | Approved | Rejected | Executed

  datatype RequestRow = RequestRow(
    order: string, requester: string, money: Money, target: string, status: RefundStatus)

  datatype DecisionRow = DecisionRow(approver: string, decision: string)

  datatype ExecutionRow = ExecutionRow(key: string, reference: string, money: Money, target: string)

  datatype Database = Database(
    orders: map<string, OrderRow>,
    receipts: map<string, Event>,
    gateway: map<string, GatewayRow>,
    projections: map<ProjectionKey, Money>,
    financial: map<string, FinancialRow>,
    references: map<string, string>,
    intents: map<string, IntentRow>,
    requests: map<string, RequestRow>,
    decisions: map<string, DecisionRow>,
    executions: map<string, ExecutionRow>,
    refundRefs: map<string, string>,
    synchronized: set<string>)

  /** The caller: roles as the request claims them, activeAdmin as the account tables say. */
  datatype Identity = Identity(account: string, customerProfile: Option<string>, admin: bool, activeAdmin: bool)

  datatype ExceptionCode = EventUnmatched | EventMismatch | RefundUnmatched | RefundMismatch

  datatype Outcome =
    | Duplicate | Unsupported | RecordedOnly(code: ExceptionCode) | Projected(status: string) | Reconciled

  datatype Code =
    | NotFound | Forbidden | AmountRange | CurrencyFormat | CheckViolation | UniqueViolation | ForeignKeyViolation
    | OrderReferenced | ReferenceTaken | IntentDiffers | Inconsistent | SelfApproval | AlreadyDecided
    | NotApproved | AlreadyExecuted | RefundIdTaken | KeyReused

  datatype Reply = Received(outcome: Outcome) | Done(replayed: bool) | Refused(code: Code)

  datatype Command =
    | AddOrder(order: string, row: OrderRow)
    | Ingest(id: string, event: Event)
    | Reprocess(id: string)
    | PrepareIntent(order: string, reference: string, amount: int, currency: string)
    | RequestRefund(who: Identity, order: string, amount: int, currency: string, target: string, key: string)
    | DecideRefund(who: Identity, request: string, decision: string)
    | RecordExecution(who: Identity, request: string, refund: string, key: string)

  const MaxMinorUnits: int := 999_999_999_999

  function Empty(): Database {
    Database(map[], map[], map[], map[], map[], map[], map[], map[], map[], map[], map[], {})
  }

  predicate PaymentKind(kind: string) {
    kind == "payment.authorized" || kind == "payment.captured" || kind == "payment.failed"
  }

  /** The operational status projected by a supported kind of event. */
  function StatusOf(kind: string): string {
    if kind == "payment.authorized" then "pending"
    else if kind == "payment.captured" then "evidence_verified"
    else if kind == "payment.failed" then "failed"
    else "reversed"
  }

  predicate CurrencyCode(currency: string) {
    |currency| == 3 && forall c | c in currency :: 'A' <= c <= 'Z'
  }

  /** Insertion that does nothing on a conflict of its key. */
  function Inserted<K, V>(table: map<K, V>, k: K, v: V): map<K, V> {
    if k in table then table else table[k := v]
  }

  /** The intent an event's provider reference resolves to. */
  function Mapping(db: Database, reference: Option<string>): Option<IntentRow> {
    if reference.None? || reference.value == "" || reference.value !in db.references
       || reference.value !in db.intents || db.intents[reference.value].order !in db.orders then None
    else Some(db.intents[reference.value])
  }

  /** The executed request a provider refund id resolves to. */
  function ExecutedRequest(db: Database, refund: Option<string>): Option<string> {
    if refund.None? || refund.value == "" || refund.value !in db.refundRefs then None
    else
      var q := db.refundRefs[refund.value];
      if q in db.executions && db.executions[q].reference == refund.value && q in db.requests then Some(q) else None
  }

  function MoneyOf(e: Event): Option<Money> {
    if e.amount.None? || e.currency.None? then None else Some(Money(e.amount.value, e.currency.value))
  }

  /** The gateway row of a payment event, or why it is only recorded. */
  function PaymentMatch(db: Database, e: Event): Result<GatewayRow, ExceptionCode> {
    var mapping := Mapping(db, e.reference);
    if mapping.None? || MoneyOf(e).None? then Err(EventUnmatched)
    else if mapping.value.money != MoneyOf(e).value then Err(EventMismatch)
    else Ok(GatewayRow(mapping.value.order, e.kind, mapping.value.money))
  }

  function RefundMatch(db: Database, e: Event): Result<GatewayRow, ExceptionCode> {
    var q := ExecutedRequest(db, e.refund);
    if q.None? then Err(RefundUnmatched)
    else if MoneyOf(e) != Some(db.requests[q.value].money) then Err(RefundMismatch)
    else Ok(GatewayRow(db.requests[q.value].order, e.kind, db.requests[q.value].money))
  }

  function KeyOf(g: string, row: GatewayRow): ProjectionKey {
    ProjectionKey(row.order, g, StatusOf(row.kind))
  }

  /** The gateway event of a receipt and its projection. */
  function Evidence(db: Database, id: string, row: GatewayRow): Database {
    db.(gateway := Inserted(db.gateway, id, row), projections := Inserted(db.projections, KeyOf(id, row), row.money))
  }

  function ProjectPayment(db: Database, id: string, e: Event): (r: (Database, Outcome))
    ensures r.0 == db.(gateway := r.0.gateway, projections := r.0.projections, financial := r.0.financial)
  {
    match PaymentMatch(db, e)
    case Err(code) => (db, RecordedOnly(code))
    case Ok(row) =>
      var recorded := Evidence(db, id, row);
      (if e.kind != "payment.captured" || row.order !in db.orders then recorded
       else recorded.(financial :=
              Inserted(db.financial, row.order, FinancialRow(row.money, db.orders[row.order].creator))),
       Projected(StatusOf(e.kind)))
  }

  function ReconcileRefund(db: Database, id: string, e: Event): (r: (Database, Outcome))
    ensures r.0 == db.(gateway := r.0.gateway, projections := r.0.projections, synchronized := r.0.synchronized)
  {
    match RefundMatch(db, e)
    case Err(code) => (db, RecordedOnly(code))
    case Ok(row) =>
      (Evidence(db, id, row).(synchronized := if e.refund.Some? then db.synchronized + {e.refund.value} else db.synchronized),
       Reconciled)
  }

  function Project(db: Database, id: string, e: Event): (r: (Database, Outcome))
    ensures r.0 == db.(gateway := r.0.gateway, projections := r.0.projections, financial := r.0.financial,
                       synchronized := r.0.synchronized)
  {
    if PaymentKind(e.kind) then ProjectPayment(db, id, e)
    else if e.kind == "refund.processed" then ReconcileRefund(db, id, e)
    else (db, Unsupported)
  }

  function ApplyIngest(db: Database, id: string, e: Event): (r: (Database, Reply))
    ensures r.0 == db.(receipts := r.0.receipts, gateway := r.0.gateway, projections := r.0.projections,
                       financial := r.0.financial, synchronized := r.0.synchronized)
  {
    if id in db.receipts then (db, Received(Duplicate))
    else
      var r := Project(db.(receipts := db.receipts[id := e]), id, e);
      (r.0, Received(r.1))
  }

  function ApplyReprocess(db: Database, id: string): (r: (Database, Reply))
    ensures r.0 == db.(gateway := r.0.gateway, projections := r.0.projections, financial := r.0.financial,
                       synchronized := r.0.synchronized)
  {
    if id !in db.receipts then (db, Refused(NotFound))
    else
      var r := Project(db, id, db.receipts[id]);
      (r.0, Received(r.1))
  }

  /** The order already has a provider reference other than this one. */
  predicate OrderReferencedElsewhere(references: map<string, string>, order: string, reference: string) {
    exists other | other in references :: references[other] == order && other != reference
  }

  /** The answer to registering an intent, from the tables it reads. */
  function PrepareReply(orders: map<string, OrderRow>, references: map<string, string>, intents: map<string, IntentRow>,
                        order: string, reference: string, money: Money): Reply
  {
    if !(0 < money.amount <= MaxMinorUnits) then Refused(AmountRange)
    else if |money.currency| != 3 then Refused(CurrencyFormat)
    else if OrderReferencedElsewhere(references, order, reference) then Refused(OrderReferenced)
    else if reference in references then
      if references[reference] != order then Refused(ReferenceTaken)
      else if reference !in intents then Refused(Inconsistent)
      else if intents[reference].money != money then Refused(IntentDiffers)
      else Done(true)
    else if !CurrencyCode(money.currency) then Refused(CheckViolation)
    else if order !in orders then Refused(ForeignKeyViolation)
    else Done(false)
  }

  function ApplyPrepareIntent(db: Database, order: string, reference: string, amount: int, currency: string)
    : (r: (Database, Reply))
    ensures r.0 == db.(references := r.0.references, intents := r.0.intents)
  {
    var reply := PrepareReply(db.orders, db.references, db.intents, order, reference, Money(amount, currency));
    if reply != Done(false) then (db, reply)
    else
      (db.(references := db.references[reference := order],
           intents := db.intents[reference := IntentRow(order, Money(amount, currency))]), reply)
  }

  datatype Actor = Admin | Customer | Vendor

  function ActorRole(db: Database, who: Identity, order: string): Result<Actor, Code> {
    if order !in db.orders then Err(NotFound)
    else if who.admin then Ok(Admin)
    else if who.customerProfile.Some? && db.orders[order].customer == who.customerProfile then Ok(Customer)
    else if db.orders[order].vendorAccount == Some(who.account) then Ok(Vendor)
    else Err(Forbidden)
  }

  function ApplyRequestRefund(db: Database, who: Identity, order: string, amount: int, currency: string,
                              target: string, key: string): (r: (Database, Reply))
    ensures r.0 == db.(requests := r.0.requests)
  {
    match ActorRole(db, who, order)
    case Err(code) => (db, Refused(code))
    case Ok(role) =>
      if role == Vendor then (db, Refused(Forbidden))
      else if amount <= 0 || !CurrencyCode(currency) then (db, Refused(CheckViolation))
      else if key in db.requests then
        if db.requests[key].(status := Requested)
           == RequestRow(order, who.account, Money(amount, currency), target, Requested) then (db, Done(true))
        else (db, Refused(KeyReused))
      else
        (db.(requests := db.requests[key := RequestRow(order, who.account, Money(amount, currency), target, Requested)]),
         Done(false))
  }

  function ApplyDecideRefund(db: Database, who: Identity, request: string, decision: string): (r: (Database, Reply))
    ensures r.0 == db.(requests := r.0.requests, decisions := r.0.decisions)
  {
    if !who.admin then (db, Refused(Forbidden))
    else if request !in db.requests then (db, Refused(NotFound))
    else if db.requests[request].requester == who.account then (db, Refused(SelfApproval))
    else if db.requests[request].status != Requested then (db, Refused(AlreadyDecided))
    else if !who.activeAdmin then (db, Refused(Forbidden))
    else if decision != "approved" && decision != "rejected" then (db, Refused(CheckViolation))
    else if request in db.decisions then (db, Refused(UniqueViolation))
    else
      (db.(decisions := db.decisions[request := DecisionRow(who.account, decision)],
           requests := db.requests[request := db.requests[request].(
             status := if decision == "approved" then Approved else Rejected)]), Done(false))
  }

  predicate KeyUsed(executions: map<string, ExecutionRow>, key: string) {
    exists q | q in executions :: executions[q].key == key
  }

  predicate RequestReferencedElsewhere(refundRefs: map<string, string>, request: string, refund: string) {
    exists other | other in refundRefs :: refundRefs[other] == request && other != refund
  }

  /** The guard on execution rows: a separate approval of this very request. */
  predicate SeparatelyApproved(db: Database, request: string) {
    && request in db.requests && request in db.decisions
    && db.decisions[request].decision == "approved"
    && db.decisions[request].approver != db.requests[request].requester
  }

  /** Why execution evidence is refused before its rows are written. */
  function ExecutionRefusal(db: Database, who: Identity, request: string, refund: string, key: string): Option<Code> {
    if !who.admin then Some(Forbidden)
    else if request !in db.requests then Some(NotFound)
    else if db.requests[request].status == Executed then
      if request in db.executions && db.executions[request].key == key then None else Some(AlreadyExecuted)
    else if db.requests[request].status != Approved || request !in db.decisions then Some(NotApproved)
    else if refund in db.refundRefs && db.refundRefs[refund] != request then Some(RefundIdTaken)
    else if RequestReferencedElsewhere(db.refundRefs, request, refund) then Some(UniqueViolation)
    else if !SeparatelyApproved(db, request) then Some(CheckViolation)
    else if request in db.executions then
      if db.executions[request].key == key then None else if KeyUsed(db.executions, key) then Some(KeyReused) else Some(UniqueViolation)
    else if KeyUsed(db.executions, key) then Some(KeyReused)
    else None
  }

  /** The rows written for a first execution. */
  function Executing(db: Database, request: string, refund: string, key: string): (r: Database)
    requires request in db.requests
    ensures r == db.(requests := r.requests, executions := r.executions, refundRefs := r.refundRefs)
  {
    var row := db.requests[request];
    db.(refundRefs := db.refundRefs[refund := request],
        executions := db.executions[request := ExecutionRow(key, refund, row.money, row.target)],
        requests := db.requests[request := row.(status := Executed)])
  }

  function ApplyRecordExecution(db: Database, who: Identity, request: string, refund: string, key: string)
    : (r: (Database, Reply))
    ensures r.0 == db.(requests := r.0.requests, executions := r.0.executions, refundRefs := r.0.refundRefs)
  {
    var refusal := ExecutionRefusal(db, who, request, refund, key);
    if refusal.Some? then (db, Refused(refusal.value))
    else if db.requests[request].status == Executed then (db, Done(true))
    else if request in db.executions then (db.(refundRefs := db.refundRefs[refund := request]), Done(true))
    else (Executing(db, request, refund, key), Done(false))
  }

  function Apply(db: Database, c: Command): (Database, Reply) {
    match c
    case AddOrder(order, row) =>
      if order in db.orders then (db, Refused(UniqueViolation)) else (db.(orders := db.orders[order := row]), Done(false))
    case Ingest(id, event) => ApplyIngest(db, id, event)
    case Reprocess(id) => ApplyReprocess(db, id)
    case PrepareIntent(order, reference, amount, currency) => ApplyPrepareIntent(db, order, reference, amount, currency)
    case RequestRefund(who, order, amount, currency, target, key) =>
      ApplyRequestRefund(db, who, order, amount, currency, target, key)
    case DecideRefund(who, request, decision) => ApplyDecideRefund(db, who, request, decision)
    case RecordExecution(who, request, refund, key) => ApplyRecordExecution(db, who, request, refund, key)
  }

  /** The tables after a run of commands. */
  function Run(db: Database, cs: seq<Command>): Database {
    if cs == [] then db else Apply(Run(db, cs[..|cs| - 1]), cs[|cs| - 1]).0
  }
}
