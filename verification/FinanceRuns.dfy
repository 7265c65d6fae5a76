/** What the finance tables keep in every run: one-to-one immutable payment mappings,
    projections that are a function of the evidence and its mapping, convergence of
    late bindings, and the refund chain. */
module FinanceRuns {
  import opened Wrappers
  import opened FinanceModel

  /** Every reference has its intent, for a known order, and no two share an order. */
  predicate IntentsWf(orders: map<string, OrderRow>, references: map<string, string>, intents: map<string, IntentRow>) {
    && references.Keys == intents.Keys
    && (forall r | r in references :: references[r] == intents[r].order && references[r] in orders)
    && (forall r, s | r in references && s in references && references[r] == references[s] :: r == s)
  }

  predicate DecisionsBound(requests: map<string, RequestRow>, decisions: map<string, DecisionRow>) {
    forall q | q in decisions :: q in requests && decisions[q].approver != requests[q].requester
  }

  /** The status of a request tells which decision and execution stand behind it. */
  predicate StatusBacked(requests: map<string, RequestRow>, decisions: map<string, DecisionRow>,
                         executions: map<string, ExecutionRow>)
  {
    forall q | q in requests ::
      match requests[q].status
      case Requested => q !in decisions && q !in executions
      case Approved => q in decisions && decisions[q].decision == "approved" && q !in executions
      case Rejected => q in decisions && decisions[q].decision == "rejected" && q !in executions
      case Executed => q in decisions && decisions[q].decision == "approved" && q in executions
  }

  /** An execution repeats its request and is bound to a provider refund of its own. */
  predicate ExecutionsBound(requests: map<string, RequestRow>, executions: map<string, ExecutionRow>,
                            refundRefs: map<string, string>)
  {
    && (forall q | q in executions ::
          && q in requests && executions[q].money == requests[q].money && executions[q].target == requests[q].target
          && executions[q].reference in refundRefs && refundRefs[executions[q].reference] == q)
    && (forall f | f in refundRefs :: refundRefs[f] in executions && executions[refundRefs[f]].reference == f)
  }

  predicate KeysDistinct(executions: map<string, ExecutionRow>) {
    forall q, t | q in executions && t in executions && executions[q].key == executions[t].key :: q == t
  }

  predicate RefundsWf(requests: map<string, RequestRow>, decisions: map<string, DecisionRow>,
                      executions: map<string, ExecutionRow>, refundRefs: map<string, string>)
  {
    && DecisionsBound(requests, decisions) && StatusBacked(requests, decisions, executions)
    && ExecutionsBound(requests, executions, refundRefs) && KeysDistinct(executions)
  }

  /** The gateway row an event deserves under the present mappings, if any. */
  function Expected(db: Database, e: Event): Option<GatewayRow> {
    if PaymentKind(e.kind) then (match PaymentMatch(db, e) case Ok(row) => Some(row) case Err(_) => None)
    else if e.kind == "refund.processed" then (match RefundMatch(db, e) case Ok(row) => Some(row) case Err(_) => None)
    else None
  }

  predicate GatewayWf(db: Database) {
    forall g | g in db.gateway :: g in db.receipts && Expected(db, db.receipts[g]) == Some(db.gateway[g])
  }

  /** Projections and gateway events correspond one to one. */
  predicate ProjectionsWf(gateway: map<string, GatewayRow>, projections: map<ProjectionKey, Money>) {
    && (forall g | g in gateway ::
          KeyOf(g, gateway[g]) in projections
          && projections[KeyOf(g, gateway[g])] == gateway[g].money)
    && (forall k | k in projections :: k.event in gateway && KeyOf(k.event, gateway[k.event]) == k)
  }

  predicate Captures(gateway: map<string, GatewayRow>, g: string, order: string) {
    g in gateway && gateway[g].kind == "payment.captured" && gateway[g].order == order
  }

  /** An order has a financial request iff a capture of it was recorded, for that money. */
  ghost predicate FinancialWf(orders: map<string, OrderRow>, gateway: map<string, GatewayRow>,
                        financial: map<string, FinancialRow>)
  {
    && (forall g, o | Captures(gateway, g, o) ::
          o in orders && o in financial
          && financial[o] == FinancialRow(gateway[g].money, orders[o].creator))
    && (forall o | o in financial :: exists g :: Captures(gateway, g, o))
  }

  ghost predicate Wf(db: Database) {
    && IntentsWf(db.orders, db.references, db.intents)
    && RefundsWf(db.requests, db.decisions, db.executions, db.refundRefs)
    && GatewayWf(db)
    && ProjectionsWf(db.gateway, db.projections)
    && FinancialWf(db.orders, db.gateway, db.financial)
  }

  predicate Moved(s: RefundStatus, t: RefundStatus) {
    s == t || (s == Requested && (t == Approved || t == Rejected)) || (s == Approved && t == Executed)
  }

  predicate Kept<K, V(==)>(a: map<K, V>, b: map<K, V>) {
    forall k | k in a :: k in b && b[k] == a[k]
  }

  predicate RequestsKept(a: map<string, RequestRow>, b: map<string, RequestRow>) {
    forall q | q in a :: q in b && b[q].(status := a[q].status) == a[q]
  }

  /** What only ever grows: orders, receipts, mappings, refund and gateway evidence,
      and the fixed part of a request. */
  predicate Grows(a: Database, b: Database) {
    && Kept(a.orders, b.orders) && Kept(a.receipts, b.receipts)
    && Kept(a.references, b.references) && Kept(a.intents, b.intents)
    && RequestsKept(a.requests, b.requests) && Kept(a.decisions, b.decisions)
    && Kept(a.refundRefs, b.refundRefs) && Kept(a.executions, b.executions)
    && Kept(a.gateway, b.gateway)
  }

  lemma Same(a: Database)
    ensures Grows(a, a)
  {
  }

  lemma KeptInsert<K, V>(m: map<K, V>, k: K, v: V)
    ensures Kept(m, Inserted(m, k, v))
  {
  }

  lemma ProjectGrows(db: Database, id: string, e: Event)
    ensures Grows(db, Project(db, id, e).0)
  {
    Same(db);
    ProjectTables(db, id, e);
    if Expected(db, e).Some? { KeptInsert(db.gateway, id, Expected(db, e).value); }
  }

  lemma IngestGrows(db: Database, id: string, e: Event)
    ensures Grows(db, ApplyIngest(db, id, e).0)
  {
    Same(db);
    if id !in db.receipts {
      var received := db.(receipts := db.receipts[id := e]);
      KeptInsert(db.receipts, id, e);
      Same(received);
      ProjectTables(received, id, e);
      if Expected(received, e).Some? { KeptInsert(db.gateway, id, Expected(received, e).value); }
    }
  }

  lemma PrepareGrows(db: Database, order: string, reference: string, amount: int, currency: string)
    requires db.references.Keys == db.intents.Keys
    ensures Grows(db, ApplyPrepareIntent(db, order, reference, amount, currency).0)
  {
    Same(db);
    KeptInsert(db.references, reference, order);
    KeptInsert(db.intents, reference, IntentRow(order, Money(amount, currency)));
  }

  lemma RequestGrows(db: Database, who: Identity, order: string, amount: int, currency: string, target: string, key: string)
    ensures Grows(db, ApplyRequestRefund(db, who, order, amount, currency, target, key).0)
  {
    Same(db);
  }

  lemma DecideGrows(db: Database, who: Identity, request: string, decision: string)
    ensures Grows(db, ApplyDecideRefund(db, who, request, decision).0)
  {
    Same(db);
    KeptInsert(db.decisions, request, DecisionRow(who.account, decision));
  }

  lemma ExecutingGrows(db: Database, request: string, refund: string, key: string)
    requires request in db.requests && request !in db.executions
    requires refund in db.refundRefs ==> db.refundRefs[refund] == request
    ensures Grows(db, Executing(db, request, refund, key))
  {
    Same(db);
    var row := db.requests[request];
    KeptInsert(db.refundRefs, refund, request);
    KeptInsert(db.executions, request, ExecutionRow(key, refund, row.money, row.target));
    assert RequestsKept(db.requests, db.requests[request := row.(status := Executed)]);
  }

  lemma ExecutionGrows(db: Database, who: Identity, request: string, refund: string, key: string)
    ensures Grows(db, ApplyRecordExecution(db, who, request, refund, key).0)
  {
    ExecutionCases(db, who, request, refund, key);
    var after := ApplyRecordExecution(db, who, request, refund, key).0;
    if after == db {
      Same(db);
    } else if after == db.(refundRefs := db.refundRefs[refund := request]) {
      BoundGrows(db, request, refund);
    } else {
      ExecutingGrows(db, request, refund, key);
    }
  }

  lemma ExecutionCases(db: Database, who: Identity, request: string, refund: string, key: string)
    ensures var after := ApplyRecordExecution(db, who, request, refund, key).0;
            || after == db
            || (request in db.requests && (refund in db.refundRefs ==> db.refundRefs[refund] == request)
                && (after == db.(refundRefs := db.refundRefs[refund := request])
                    || (request !in db.executions && after == Executing(db, request, refund, key))))
  {
  }

  lemma BoundGrows(db: Database, request: string, refund: string)
    requires refund in db.refundRefs ==> db.refundRefs[refund] == request
    ensures Grows(db, db.(refundRefs := db.refundRefs[refund := request]))
  {
    Same(db);
  }

  /** No command takes back or rewrites evidence. */
  lemma StepGrows(db: Database, c: Command)
    requires db.references.Keys == db.intents.Keys
    ensures Grows(db, Apply(db, c).0)
  {
    Same(db);
    match c {
      case AddOrder(order, row) => KeptInsert(db.orders, order, row);
      case Ingest(id, e) => IngestGrows(db, id, e);
      case Reprocess(id) => if id in db.receipts { ProjectGrows(db, id, db.receipts[id]); }
      case PrepareIntent(order, reference, amount, currency) => PrepareGrows(db, order, reference, amount, currency);
      case RequestRefund(who, order, amount, currency, target, key) =>
        RequestGrows(db, who, order, amount, currency, target, key);
      case DecideRefund(who, request, decision) => DecideGrows(db, who, request, decision);
      case RecordExecution(who, request, refund, key) => ExecutionGrows(db, who, request, refund, key);
    }
  }

  /** A mapping once found is found for good. */
  lemma ExpectedStays(a: Database, b: Database, e: Event)
    requires Grows(a, b) && Expected(a, e).Some?
    ensures Expected(b, e) == Expected(a, e)
  {
  }

  lemma ExpectedUnchanged(a: Database, b: Database, e: Event)
    requires a.orders == b.orders && a.references == b.references && a.intents == b.intents
    requires a.refundRefs == b.refundRefs && a.executions == b.executions && a.requests == b.requests
    ensures Expected(a, e) == Expected(b, e)
  {
  }

  /** The tables after a projection, in terms of the row the event deserves. */
  ghost predicate ProjectedTo(db: Database, after: Database, id: string, kind: string, row: GatewayRow) {
    && after.gateway == Inserted(db.gateway, id, row)
    && after.projections == Inserted(db.projections, KeyOf(id, row), row.money)
    && after.financial ==
       (if kind != "payment.captured" || row.order !in db.orders then db.financial
        else Inserted(db.financial, row.order, FinancialRow(row.money, db.orders[row.order].creator)))
    && after == db.(gateway := after.gateway, projections := after.projections,
                    financial := after.financial, synchronized := after.synchronized)
  }

  lemma PaymentEvidence(db: Database, id: string, e: Event, row: GatewayRow)
    requires PaymentMatch(db, e) == Ok(row)
    ensures var after := ProjectPayment(db, id, e).0;
            && after.gateway == Inserted(db.gateway, id, row)
            && after.projections == Inserted(db.projections, KeyOf(id, row), row.money)
  {
  }

  lemma PaymentFinancial(db: Database, id: string, e: Event, row: GatewayRow)
    requires PaymentMatch(db, e) == Ok(row)
    ensures ProjectPayment(db, id, e).0.financial
         == if e.kind != "payment.captured" || row.order !in db.orders then db.financial
            else Inserted(db.financial, row.order, FinancialRow(row.money, db.orders[row.order].creator))
  {
  }

  lemma PaymentFrame(db: Database, id: string, e: Event)
    ensures var after := ProjectPayment(db, id, e).0;
            && after == db.(gateway := after.gateway, projections := after.projections,
                            financial := after.financial, synchronized := after.synchronized)
            && after.synchronized == db.synchronized
  {
  }

  lemma PaymentProjected(db: Database, id: string, e: Event, row: GatewayRow)
    requires PaymentMatch(db, e) == Ok(row)
    ensures ProjectedTo(db, ProjectPayment(db, id, e).0, id, e.kind, row)
  {
    PaymentEvidence(db, id, e, row);
    PaymentFinancial(db, id, e, row);
    PaymentFrame(db, id, e);
  }

  lemma PaymentMatched(db: Database, e: Event, row: GatewayRow)
    requires PaymentMatch(db, e) == Ok(row)
    ensures row.kind == e.kind && row.order in db.orders
  {
  }

  lemma PaymentTables(db: Database, id: string, e: Event)
    requires PaymentKind(e.kind)
    ensures var after, row := Project(db, id, e).0, Expected(db, e);
            if row.None? then after == db
            else ProjectedTo(db, after, id, e.kind, row.value) && row.value.kind == e.kind && row.value.order in db.orders
                 && after.synchronized == db.synchronized
  {
    PaymentFrame(db, id, e);
    match PaymentMatch(db, e) {
      case Ok(row) =>
        PaymentProjected(db, id, e, row);
        PaymentMatched(db, e, row);
      case Err(_) =>
    }
  }

  lemma RefundTables(db: Database, id: string, e: Event)
    requires !PaymentKind(e.kind)
    ensures var after, row := Project(db, id, e).0, Expected(db, e);
            if row.None? then after == db
            else ProjectedTo(db, after, id, e.kind, row.value) && row.value.kind == e.kind
  {
  }

  /** Projecting an event records exactly the row it deserves, where none is yet. */
  lemma ProjectTables(db: Database, id: string, e: Event)
    ensures var after, row := Project(db, id, e).0, Expected(db, e);
            if row.None? then after == db
            else ProjectedTo(db, after, id, e.kind, row.value) && row.value.kind == e.kind
    ensures Expected(db, e).Some? && PaymentKind(e.kind) ==>
              Expected(db, e).value.order in db.orders && Project(db, id, e).0.synchronized == db.synchronized
  {
    if PaymentKind(e.kind) { PaymentTables(db, id, e); } else { RefundTables(db, id, e); }
  }

  lemma ProjectionsStep(gateway: map<string, GatewayRow>, projections: map<ProjectionKey, Money>,
                        id: string, row: GatewayRow)
    requires ProjectionsWf(gateway, projections) && id !in gateway
    ensures KeyOf(id, row) !in projections
    ensures ProjectionsWf(gateway[id := row], projections[KeyOf(id, row) := row.money])
  {
  }

  /** Captures of one order carry one amount: the order has a single intent. */
  lemma OneMoney(db: Database, e: Event, g: string)
    requires IntentsWf(db.orders, db.references, db.intents) && GatewayWf(db)
    requires e.kind == "payment.captured" && Expected(db, e).Some?
    requires Captures(db.gateway, g, Expected(db, e).value.order)
    ensures db.gateway[g].money == Expected(db, e).value.money
  {
    var f := db.receipts[g];
    assert Expected(db, f) == Some(db.gateway[g]);
    assert db.references[f.reference.value] == db.references[e.reference.value];
  }

  lemma FinancialTable(orders: map<string, OrderRow>, gateway: map<string, GatewayRow>,
                       financial: map<string, FinancialRow>, id: string, row: GatewayRow)
    requires FinancialWf(orders, gateway, financial) && id !in gateway
    requires row.order in orders
    requires row.kind == "payment.captured"
    requires forall g | Captures(gateway, g, row.order) :: gateway[g].money == row.money
    ensures FinancialWf(orders, gateway[id := row],
                        Inserted(financial, row.order, FinancialRow(row.money, orders[row.order].creator)))
  {
    var gateway', financial' :=
      gateway[id := row], Inserted(financial, row.order, FinancialRow(row.money, orders[row.order].creator));
    if row.order in financial {
      var h :| Captures(gateway, h, row.order);
      assert financial[row.order].money == row.money;
    }
    forall g, o | Captures(gateway', g, o)
      ensures o in orders && o in financial' && financial'[o] == FinancialRow(gateway'[g].money, orders[o].creator)
    {
      assert g != id ==> Captures(gateway, g, o);
    }
    forall o | o in financial' ensures exists g :: Captures(gateway', g, o) {
      if o in financial {
        var h :| Captures(gateway, h, o);
        assert Captures(gateway', h, o);
      } else {
        assert Captures(gateway', id, o);
      }
    }
  }

  lemma FinancialOther(orders: map<string, OrderRow>, gateway: map<string, GatewayRow>,
                       financial: map<string, FinancialRow>, id: string, row: GatewayRow)
    requires FinancialWf(orders, gateway, financial) && id !in gateway && row.kind != "payment.captured"
    ensures FinancialWf(orders, gateway[id := row], financial)
  {
    var gateway' := gateway[id := row];
    forall g, o | Captures(gateway', g, o) ensures Captures(gateway, g, o) {}
    forall o | o in financial ensures exists g :: Captures(gateway', g, o) {
      var h :| Captures(gateway, h, o);
      assert Captures(gateway', h, o);
    }
  }

  lemma FinancialStep(db: Database, id: string, e: Event)
    requires Wf(db) && id !in db.gateway && Expected(db, e).Some?
    ensures var after := Project(db, id, e).0;
            FinancialWf(after.orders, after.gateway, after.financial)
  {
    var row := Expected(db, e).value;
    ProjectTables(db, id, e);
    if e.kind == "payment.captured" {
      forall g | Captures(db.gateway, g, row.order) ensures db.gateway[g].money == row.money { OneMoney(db, e, g); }
      FinancialTable(db.orders, db.gateway, db.financial, id, row);
    } else {
      FinancialOther(db.orders, db.gateway, db.financial, id, row);
    }
  }

  lemma ProjectWf(db: Database, id: string, e: Event)
    requires Wf(db) && id in db.receipts && db.receipts[id] == e
    ensures Wf(Project(db, id, e).0)
  {
    var after := Project(db, id, e).0;
    ProjectTables(db, id, e);
    if Expected(db, e).Some? {
      forall f: Event ensures Expected(after, f) == Expected(db, f) { ExpectedUnchanged(after, db, f); }
      if id !in db.gateway {
        ProjectionsStep(db.gateway, db.projections, id, Expected(db, e).value);
        FinancialStep(db, id, e);
      } else {
        RedriveAddsNothing(db, id, e);
      }
    }
  }

  /** A receipt that was projected has left nothing for a re-drive to add. */
  lemma RedriveAddsNothing(db: Database, id: string, e: Event)
    requires Wf(db) && id in db.gateway && db.receipts[id] == e
    ensures Expected(db, e).Some?
    ensures var after := Project(db, id, e).0;
            after == db.(synchronized := after.synchronized)
  {
    assert Expected(db, e) == Some(db.gateway[id]);
    ProjectTables(db, id, e);
    assert e.kind == "payment.captured" ==> Captures(db.gateway, id, db.gateway[id].order);
  }

  lemma NewReceiptWf(db: Database, id: string, e: Event)
    requires Wf(db) && id !in db.receipts
    ensures Wf(db.(receipts := db.receipts[id := e]))
  {
    var after := db.(receipts := db.receipts[id := e]);
    forall g | g in after.gateway ensures g in after.receipts && Expected(after, after.receipts[g]) == Some(after.gateway[g]) {
      ExpectedUnchanged(db, after, db.receipts[g]);
    }
  }

  /** Steps that leave the evidence tables alone and only let the mappings grow. */
  lemma QuietWf(a: Database, b: Database)
    requires Wf(a) && Grows(a, b)
    requires b.gateway == a.gateway && b.projections == a.projections && b.financial == a.financial
    requires IntentsWf(b.orders, b.references, b.intents)
    requires RefundsWf(b.requests, b.decisions, b.executions, b.refundRefs)
    ensures Wf(b)
  {
    forall g | g in b.gateway ensures g in b.receipts && Expected(b, b.receipts[g]) == Some(b.gateway[g]) {
      ExpectedStays(a, b, a.receipts[g]);
    }
  }

  lemma PrepareWf(db: Database, order: string, reference: string, amount: int, currency: string)
    requires IntentsWf(db.orders, db.references, db.intents)
    ensures var after := ApplyPrepareIntent(db, order, reference, amount, currency).0;
            IntentsWf(after.orders, after.references, after.intents)
  {
  }

  lemma RequestTables(requests: map<string, RequestRow>, decisions: map<string, DecisionRow>,
                      executions: map<string, ExecutionRow>, refundRefs: map<string, string>,
                      q: string, row: RequestRow)
    requires RefundsWf(requests, decisions, executions, refundRefs)
    requires q !in requests && row.status == Requested
    ensures RefundsWf(requests[q := row], decisions, executions, refundRefs)
  {
    var requests' := requests[q := row];
    assert DecisionsBound(requests', decisions);
    assert StatusBacked(requests', decisions, executions);
    assert ExecutionsBound(requests', executions, refundRefs);
  }

  lemma RequestWf(db: Database, who: Identity, order: string, amount: int, currency: string, target: string, key: string)
    requires RefundsWf(db.requests, db.decisions, db.executions, db.refundRefs)
    ensures var after := ApplyRequestRefund(db, who, order, amount, currency, target, key).0;
            RefundsWf(after.requests, after.decisions, after.executions, after.refundRefs)
  {
    if key !in db.requests {
      RequestTables(db.requests, db.decisions, db.executions, db.refundRefs, key,
                    RequestRow(order, who.account, Money(amount, currency), target, Requested));
    }
  }

  lemma DecisionTables(requests: map<string, RequestRow>, decisions: map<string, DecisionRow>,
                       executions: map<string, ExecutionRow>, refundRefs: map<string, string>,
                       q: string, row: DecisionRow)
    requires RefundsWf(requests, decisions, executions, refundRefs)
    requires q in requests && requests[q].status == Requested && requests[q].requester != row.approver
    requires row.decision == "approved" || row.decision == "rejected"
    ensures RefundsWf(
      requests[q := requests[q].(status := if row.decision == "approved" then Approved else Rejected)],
      decisions[q := row], executions, refundRefs)
  {
    var requests' := requests[q := requests[q].(status := if row.decision == "approved" then Approved else Rejected)];
    assert DecisionsBound(requests', decisions[q := row]);
    assert StatusBacked(requests', decisions[q := row], executions);
    assert ExecutionsBound(requests', executions, refundRefs);
  }

  lemma DecideWf(db: Database, who: Identity, request: string, decision: string)
    requires RefundsWf(db.requests, db.decisions, db.executions, db.refundRefs)
    ensures var after := ApplyDecideRefund(db, who, request, decision).0;
            RefundsWf(after.requests, after.decisions, after.executions, after.refundRefs)
  {
    if ApplyDecideRefund(db, who, request, decision).1.Done? {
      DecisionTables(db.requests, db.decisions, db.executions, db.refundRefs, request, DecisionRow(who.account, decision));
    }
  }

  lemma ExecutionTables(requests: map<string, RequestRow>, decisions: map<string, DecisionRow>,
                        executions: map<string, ExecutionRow>, refundRefs: map<string, string>,
                        q: string, row: ExecutionRow)
    requires RefundsWf(requests, decisions, executions, refundRefs)
    requires q in requests && requests[q].status == Approved
    requires row.money == requests[q].money && row.target == requests[q].target
    requires row.reference !in refundRefs
    requires forall t | t in executions :: executions[t].key != row.key
    ensures RefundsWf(requests[q := requests[q].(status := Executed)], decisions, executions[q := row],
                      refundRefs[row.reference := q])
  {
    var requests' := requests[q := requests[q].(status := Executed)];
    assert DecisionsBound(requests', decisions);
    assert StatusBacked(requests', decisions, executions[q := row]);
    assert ExecutionsBound(requests', executions[q := row], refundRefs[row.reference := q]);
    assert KeysDistinct(executions[q := row]);
  }

  lemma FirstExecution(db: Database, who: Identity, request: string, refund: string, key: string)
    requires RefundsWf(db.requests, db.decisions, db.executions, db.refundRefs)
    requires ExecutionRefusal(db, who, request, refund, key).None? && db.requests[request].status != Executed
    ensures db.requests[request].status == Approved && request !in db.executions
    ensures refund !in db.refundRefs && !KeyUsed(db.executions, key)
  {
  }

  lemma ExecutionWf(db: Database, who: Identity, request: string, refund: string, key: string)
    requires RefundsWf(db.requests, db.decisions, db.executions, db.refundRefs)
    ensures var after := ApplyRecordExecution(db, who, request, refund, key).0;
            RefundsWf(after.requests, after.decisions, after.executions, after.refundRefs)
  {
    var after := ApplyRecordExecution(db, who, request, refund, key).0;
    if ExecutionRefusal(db, who, request, refund, key).Some? || db.requests[request].status == Executed {
      assert after == db;
    } else {
      FirstExecution(db, who, request, refund, key);
      assert after == Executing(db, request, refund, key);
      ExecutionTables(db.requests, db.decisions, db.executions, db.refundRefs, request,
                      ExecutionRow(key, refund, db.requests[request].money, db.requests[request].target));
    }
  }

  lemma IngestWf(db: Database, id: string, e: Event)
    requires Wf(db)
    ensures Wf(ApplyIngest(db, id, e).0)
  {
    if id !in db.receipts {
      NewReceiptWf(db, id, e);
      ProjectWf(db.(receipts := db.receipts[id := e]), id, e);
    }
  }

  lemma AddOrderIntents(orders: map<string, OrderRow>, references: map<string, string>,
                        intents: map<string, IntentRow>, order: string, row: OrderRow)
    requires IntentsWf(orders, references, intents)
    ensures IntentsWf(orders[order := row], references, intents)
  {
  }

  lemma AddOrderWf(db: Database, order: string, row: OrderRow)
    requires Wf(db) && order !in db.orders
    ensures Wf(db.(orders := db.orders[order := row]))
  {
    Same(db);
    KeptInsert(db.orders, order, row);
    AddOrderIntents(db.orders, db.references, db.intents, order, row);
    QuietWf(db, db.(orders := db.orders[order := row]));
  }

  lemma PrepareStepWf(db: Database, order: string, reference: string, amount: int, currency: string)
    requires Wf(db)
    ensures Wf(ApplyPrepareIntent(db, order, reference, amount, currency).0)
  {
    PrepareGrows(db, order, reference, amount, currency);
    PrepareWf(db, order, reference, amount, currency);
    QuietWf(db, ApplyPrepareIntent(db, order, reference, amount, currency).0);
  }

  lemma RequestStepWf(db: Database, who: Identity, order: string, amount: int, currency: string, target: string, key: string)
    requires Wf(db)
    ensures Wf(ApplyRequestRefund(db, who, order, amount, currency, target, key).0)
  {
    RequestGrows(db, who, order, amount, currency, target, key);
    RequestWf(db, who, order, amount, currency, target, key);
    QuietWf(db, ApplyRequestRefund(db, who, order, amount, currency, target, key).0);
  }

  lemma DecideStepWf(db: Database, who: Identity, request: string, decision: string)
    requires Wf(db)
    ensures Wf(ApplyDecideRefund(db, who, request, decision).0)
  {
    DecideGrows(db, who, request, decision);
    DecideWf(db, who, request, decision);
    QuietWf(db, ApplyDecideRefund(db, who, request, decision).0);
  }

  lemma ExecutionStepWf(db: Database, who: Identity, request: string, refund: string, key: string)
    requires Wf(db)
    ensures Wf(ApplyRecordExecution(db, who, request, refund, key).0)
  {
    ExecutionGrows(db, who, request, refund, key);
    ExecutionWf(db, who, request, refund, key);
    QuietWf(db, ApplyRecordExecution(db, who, request, refund, key).0);
  }

  lemma StepWf(db: Database, c: Command)
    requires Wf(db)
    ensures Wf(Apply(db, c).0)
  {
    match c {
      case Ingest(id, e) => IngestWf(db, id, e);
      case Reprocess(id) => if id in db.receipts { ProjectWf(db, id, db.receipts[id]); }
      case AddOrder(order, row) => if order !in db.orders { AddOrderWf(db, order, row); }
      case PrepareIntent(order, reference, amount, currency) => PrepareStepWf(db, order, reference, amount, currency);
      case RequestRefund(who, order, amount, currency, target, key) =>
        RequestStepWf(db, who, order, amount, currency, target, key);
      case DecideRefund(who, request, decision) => DecideStepWf(db, who, request, decision);
      case RecordExecution(who, request, refund, key) => ExecutionStepWf(db, who, request, refund, key);
    }
  }

  lemma {:induction false} RunWf(cs: seq<Command>)
    ensures Wf(Run(Empty(), cs))
  {
    if cs != [] {
      RunWf(cs[..|cs| - 1]);
      StepWf(Run(Empty(), cs[..|cs| - 1]), cs[|cs| - 1]);
    }
  }

  lemma GrowsTransitive(a: Database, b: Database, c: Database)
    requires Grows(a, b) && Grows(b, c)
    ensures Grows(a, c)
  {
    forall q | q in a.requests ensures q in c.requests && c.requests[q].(status := a.requests[q].status) == a.requests[q] {
      assert b.requests[q].(status := a.requests[q].status) == a.requests[q];
      assert c.requests[q].(status := b.requests[q].status) == b.requests[q];
    }
  }

  /** In particular a provider reference stays with its order, and an order with its
      reference, through every continuation of a run. */
  lemma {:induction false} RunGrows(cs: seq<Command>, i: nat)
    requires i <= |cs|
    ensures Grows(Run(Empty(), cs[..i]), Run(Empty(), cs))
    decreases |cs| - i
  {
    if i == |cs| {
      assert cs[..i] == cs;
      Same(Run(Empty(), cs));
    } else {
      assert cs[..i + 1][..i] == cs[..i];
      RunWf(cs[..i]);
      StepGrows(Run(Empty(), cs[..i]), cs[i]);
      RunGrows(cs, i + 1);
      GrowsTransitive(Run(Empty(), cs[..i]), Run(Empty(), cs[..i + 1]), Run(Empty(), cs));
    }
  }
}
