/** What the finance commands answer and leave behind, said of the rows alone and with the
    statuses spelled out. */
module FinanceAnswers {
  import opened Wrappers
  import opened FinanceModel
  import opened FinanceRuns

  // ------------------------------------------------------------- gateway events

  /** The event names a registered reference of a known order. */
  predicate Mapped(db: Database, e: Event) {
    && e.reference.Some? && e.reference.value != "" && e.reference.value in db.references
    && e.reference.value in db.intents && db.intents[e.reference.value].order in db.orders
  }

  /** The event states exactly this amount in this currency. */
  predicate States(e: Event, money: Money) {
    e.amount == Some(money.amount) && e.currency == Some(money.currency)
  }

  predicate PaymentFor(db: Database, e: Event) {
    Mapped(db, e) && States(e, db.intents[e.reference.value].money)
  }

  /** The event names a provider refund with an execution of a request. */
  predicate Executes(db: Database, e: Event) {
    && e.refund.Some? && e.refund.value != "" && e.refund.value in db.refundRefs
    && var q := db.refundRefs[e.refund.value];
       q in db.executions && db.executions[q].reference == e.refund.value && q in db.requests
  }

  predicate RefundFor(db: Database, e: Event) {
    Executes(db, e) && States(e, db.requests[db.refundRefs[e.refund.value]].money)
  }

  lemma MatchExactly(db: Database, e: Event)
    ensures PaymentMatch(db, e).Ok? <==> PaymentFor(db, e)
    ensures PaymentFor(db, e) ==>
              var intent := db.intents[e.reference.value];
              PaymentMatch(db, e) == Ok(GatewayRow(intent.order, e.kind, intent.money))
    ensures PaymentMatch(db, e) == Err(EventMismatch) <==>
              Mapped(db, e) && e.amount.Some? && e.currency.Some? && !States(e, db.intents[e.reference.value].money)
    ensures PaymentMatch(db, e) == Err(EventUnmatched) <==> !Mapped(db, e) || e.amount.None? || e.currency.None?
  {
  }

  lemma RefundMatchExactly(db: Database, e: Event)
    ensures RefundMatch(db, e).Ok? <==> RefundFor(db, e)
    ensures RefundFor(db, e) ==>
              var request := db.requests[db.refundRefs[e.refund.value]];
              RefundMatch(db, e) == Ok(GatewayRow(request.order, e.kind, request.money))
    ensures RefundMatch(db, e) == Err(RefundMismatch) <==>
              Executes(db, e) && !States(e, db.requests[db.refundRefs[e.refund.value]].money)
    ensures RefundMatch(db, e) == Err(RefundUnmatched) <==> !Executes(db, e)
  {
  }

  /** What a payment event comes to. */
  lemma PaymentExactly(db: Database, id: string, e: Event)
    requires e.kind == "payment.authorized" || e.kind == "payment.captured" || e.kind == "payment.failed"
    ensures var r := Project(db, id, e).1;
            && (r == Projected("pending") <==> e.kind == "payment.authorized" && PaymentFor(db, e))
            && (r == Projected("evidence_verified") <==> e.kind == "payment.captured" && PaymentFor(db, e))
            && (r == Projected("failed") <==> e.kind == "payment.failed" && PaymentFor(db, e))
            && (r == RecordedOnly(EventMismatch) <==>
                  Mapped(db, e) && e.amount.Some? && e.currency.Some? && !PaymentFor(db, e))
            && (r == RecordedOnly(EventUnmatched) <==> !Mapped(db, e) || e.amount.None? || e.currency.None?)
  {
    MatchExactly(db, e);
  }

  /** What any other event comes to. */
  lemma OtherExactly(db: Database, id: string, e: Event)
    requires e.kind != "payment.authorized" && e.kind != "payment.captured" && e.kind != "payment.failed"
    ensures var r := Project(db, id, e).1;
            && (r == Unsupported <==> e.kind != "refund.processed")
            && (r == Reconciled <==> e.kind == "refund.processed" && RefundFor(db, e))
            && (r == RecordedOnly(RefundMismatch) <==> e.kind == "refund.processed" && Executes(db, e) && !RefundFor(db, e))
            && (r == RecordedOnly(RefundUnmatched) <==> e.kind == "refund.processed" && !Executes(db, e))
            && !r.Projected?
  {
    RefundMatchExactly(db, e);
  }

  /** A delivery is a duplicate exactly when its id is known; any other is recorded and
      comes to what its event comes to. */
  lemma DeliveredExactly(db: Database, id: string, e: Event)
    ensures var (after, r) := Apply(db, Ingest(id, e));
            && (r == Received(Duplicate) <==> id in db.receipts)
            && (id in db.receipts ==> after == db)
            && (id !in db.receipts ==>
                  && after.receipts == db.receipts[id := e]
                  && r == Received(Project(db.(receipts := db.receipts[id := e]), id, e).1))
  {
    var known := db.(receipts := db.receipts[id := e]);
    if PaymentKind(e.kind) { PaymentFrame(known, id, e); }
  }

  // ------------------------------------------------------------- projections of a run

  predicate SupportedKind(kind: string) {
    kind == "payment.authorized" || kind == "payment.captured" || kind == "payment.failed" || kind == "refund.processed"
  }

  /** The gateway row of an event repeats its receipt and the mapping the receipt names. */
  predicate RowBacked(db: Database, g: string) {
    && g in db.gateway && g in db.receipts
    && var row, e := db.gateway[g], db.receipts[g];
       && row.kind == e.kind && SupportedKind(e.kind) && States(e, row.money)
       && if e.kind == "refund.processed" then
            RefundFor(db, e) && row.order == db.requests[db.refundRefs[e.refund.value]].order
          else PaymentFor(db, e) && row.order == db.intents[e.reference.value].order
  }

  lemma RowsBacked(db: Database, g: string)
    requires GatewayWf(db) && g in db.gateway
    ensures RowBacked(db, g)
  {
    MatchExactly(db, db.receipts[g]);
    RefundMatchExactly(db, db.receipts[g]);
  }

  predicate Recorded(db: Database, g: string, kind: string, order: string) {
    g in db.gateway && db.gateway[g].kind == kind && db.gateway[g].order == order
  }

  lemma StatusesSay(db: Database, order: string, g: string)
    requires GatewayWf(db) && ProjectionsWf(db.gateway, db.projections)
    ensures ProjectionKey(order, g, "pending") in db.projections <==> Recorded(db, g, "payment.authorized", order)
    ensures ProjectionKey(order, g, "evidence_verified") in db.projections <==> Recorded(db, g, "payment.captured", order)
    ensures ProjectionKey(order, g, "failed") in db.projections <==> Recorded(db, g, "payment.failed", order)
    ensures ProjectionKey(order, g, "reversed") in db.projections <==> Recorded(db, g, "refund.processed", order)
  {
    if g in db.gateway {
      RowsBacked(db, g);
      assert KeyOf(g, db.gateway[g]) in db.projections;
    }
  }

  lemma NoOtherStatus(db: Database, k: ProjectionKey)
    requires ProjectionsWf(db.gateway, db.projections) && k in db.projections
    ensures k.status == "pending" || k.status == "evidence_verified" || k.status == "failed" || k.status == "reversed"
    ensures k.event in db.gateway && db.gateway[k.event].order == k.order
    ensures db.projections[k] == db.gateway[k.event].money
  {
    assert KeyOf(k.event, db.gateway[k.event]) == k;
  }

  /** In every run: an order has a projection of a status for an event exactly when the
      event was recorded for it and is of the kind of that status, and the recorded row
      repeats its receipt, which states the money of the mapping it names. */
  lemma ProjectionsSay(cs: seq<Command>, order: string, g: string)
    ensures var db := Run(Empty(), cs);
            && (ProjectionKey(order, g, "pending") in db.projections <==> Recorded(db, g, "payment.authorized", order))
            && (ProjectionKey(order, g, "evidence_verified") in db.projections <==> Recorded(db, g, "payment.captured", order))
            && (ProjectionKey(order, g, "failed") in db.projections <==> Recorded(db, g, "payment.failed", order))
            && (ProjectionKey(order, g, "reversed") in db.projections <==> Recorded(db, g, "refund.processed", order))
            && (g in db.gateway ==> RowBacked(db, g))
  {
    RunWf(cs);
    StatusesSay(Run(Empty(), cs), order, g);
    if g in Run(Empty(), cs).gateway { RowsBacked(Run(Empty(), cs), g); }
  }

  predicate Verified(db: Database, order: string, g: string) {
    ProjectionKey(order, g, "evidence_verified") in db.projections
  }

  lemma VerifiedRow(db: Database, order: string, g: string)
    requires Wf(db) && Verified(db, order, g)
    ensures order in db.financial && order in db.orders
    ensures db.financial[order] == FinancialRow(db.projections[ProjectionKey(order, g, "evidence_verified")],
                                                db.orders[order].creator)
  {
    StatusesSay(db, order, g);
    NoOtherStatus(db, ProjectionKey(order, g, "evidence_verified"));
    assert Captures(db.gateway, g, order);
  }

  lemma FinancialSays(db: Database, order: string)
    requires Wf(db)
    ensures order in db.financial <==> exists g :: Verified(db, order, g)
  {
    if order in db.financial {
      var g :| Captures(db.gateway, g, order);
      StatusesSay(db, order, g);
      assert Verified(db, order, g);
    }
    if g :| Verified(db, order, g) { VerifiedRow(db, order, g); }
  }

  /** In every run: an order has a financial request exactly when some evidence of it is
      verified, and the request is for the money of each such projection. */
  lemma FinancialExactly(cs: seq<Command>, order: string)
    ensures var db := Run(Empty(), cs);
            && (order in db.financial <==> exists g :: Verified(db, order, g))
            && (forall g | Verified(db, order, g) ::
                  order in db.financial && order in db.orders
                  && db.financial[order] == FinancialRow(db.projections[ProjectionKey(order, g, "evidence_verified")],
                                                         db.orders[order].creator))
  {
    var db := Run(Empty(), cs);
    RunWf(cs);
    FinancialSays(db, order);
    forall g | Verified(db, order, g)
      ensures order in db.financial && order in db.orders
              && db.financial[order] == FinancialRow(db.projections[ProjectionKey(order, g, "evidence_verified")],
                                                     db.orders[order].creator)
    {
      VerifiedRow(db, order, g);
    }
  }
  /** A matched first delivery is recorded as what it is, and nothing else is. */
  lemma DeliveredIsRecorded(db: Database, id: string, e: Event)
    requires GatewayWf(db) && id !in db.receipts
    ensures var gateway := Apply(db, Ingest(id, e)).0.gateway;
            if PaymentKind(e.kind) && PaymentFor(db, e) then
              var intent := db.intents[e.reference.value];
              gateway == db.gateway[id := GatewayRow(intent.order, e.kind, intent.money)]
            else if e.kind == "refund.processed" && RefundFor(db, e) then
              var request := db.requests[db.refundRefs[e.refund.value]];
              gateway == db.gateway[id := GatewayRow(request.order, e.kind, request.money)]
            else gateway == db.gateway
  {
    var known := db.(receipts := db.receipts[id := e]);
    MatchExactly(known, e);
    RefundMatchExactly(known, e);
    ProjectTables(known, id, e);
    assert id !in db.gateway;
  }

  // ------------------------------------------------------------- intents and refunds

  /** A reference is bound exactly when it is new, its order is known and has no other, and
      the amount and currency are in range; it is then bound to this order for this money. */
  lemma PreparedExactly(db: Database, order: string, reference: string, amount: int, currency: string)
    ensures var (after, r) := Apply(db, PrepareIntent(order, reference, amount, currency));
            && (r == Done(false) <==>
                  && 1 <= amount <= 999_999_999_999 && |currency| == 3 && (forall c | c in currency :: 'A' <= c <= 'Z')
                  && order in db.orders && reference !in db.references
                  && (forall other | other in db.references :: db.references[other] != order))
            && (r == Done(true) <==>
                  && 1 <= amount <= 999_999_999_999 && |currency| == 3
                  && reference in db.references && db.references[reference] == order
                  && reference in db.intents && db.intents[reference].money == Money(amount, currency)
                  && (forall other | other in db.references && db.references[other] == order :: other == reference))
            && (r != Done(false) ==> after == db)
            && (r == Done(false) ==>
                  && after.references == db.references[reference := order]
                  && after.intents == db.intents[reference := IntentRow(order, Money(amount, currency))])
  {
    if forall other | other in db.references && db.references[other] == order :: other == reference {
      assert !OrderReferencedElsewhere(db.references, order, reference);
    } else {
      var other :| other in db.references && db.references[other] == order && other != reference;
      assert OrderReferencedElsewhere(db.references, order, reference);
    }
  }

  /** Administrators and the order's own customer may ask for a refund of it. */
  predicate MayRequest(db: Database, who: Identity, order: string) {
    order in db.orders
    && (who.admin || (who.customerProfile.Some? && db.orders[order].customer == who.customerProfile))
  }

  lemma RequestedExactly(db: Database, who: Identity, order: string, amount: int, currency: string, target: string, key: string)
    ensures var (after, r) := Apply(db, RequestRefund(who, order, amount, currency, target, key));
            && (r == Done(false) <==>
                  MayRequest(db, who, order) && 0 < amount && CurrencyCode(currency) && key !in db.requests)
            && (r == Done(true) <==>
                  && MayRequest(db, who, order) && 0 < amount && CurrencyCode(currency) && key in db.requests
                  && var row := db.requests[key];
                     row.order == order && row.requester == who.account && row.money == Money(amount, currency)
                     && row.target == target)
            && (r != Done(false) ==> after == db)
            && (r == Done(false) ==>
                  after.requests == db.requests[key := RequestRow(order, who.account, Money(amount, currency), target, Requested)])
  {
  }

  /** A request is decided exactly by an active administrator who did not make it, while it
      is open; the decision taken is the one recorded. */
  lemma DecidedExactly(db: Database, who: Identity, request: string, decision: string)
    requires StatusBacked(db.requests, db.decisions, db.executions)
    ensures var (after, r) := Apply(db, DecideRefund(who, request, decision));
            && (r.Done? <==>
                  && who.admin && who.activeAdmin && request in db.requests && db.requests[request].requester != who.account
                  && db.requests[request].status == Requested && (decision == "approved" || decision == "rejected"))
            && (!r.Done? ==> after == db)
            && (r.Done? ==>
                  && after.decisions == db.decisions[request := DecisionRow(who.account, decision)]
                  && after.requests.Keys == db.requests.Keys
                  && (after.requests[request].status == Approved <==> decision == "approved")
                  && (after.requests[request].status == Rejected <==> decision == "rejected"))
  {
  }

  lemma KeyFree(executions: map<string, ExecutionRow>, key: string)
    ensures KeyUsed(executions, key) <==> !(forall q | q in executions :: executions[q].key != key)
  {
  }

  lemma ExecutionsNamed(db: Database, request: string, refund: string)
    requires RefundsWf(db.requests, db.decisions, db.executions, db.refundRefs) && request in db.requests
    requires db.requests[request].status == Approved
    ensures !RequestReferencedElsewhere(db.refundRefs, request, refund) && SeparatelyApproved(db, request)
    ensures request !in db.executions && (refund in db.refundRefs ==> db.refundRefs[refund] != request)
  {
  }

  /** Execution evidence is recorded exactly by an administrator, for an approved request,
      under a provider refund and a key that are both new. */
  lemma ExecutedFirst(db: Database, who: Identity, request: string, refund: string, key: string)
    requires RefundsWf(db.requests, db.decisions, db.executions, db.refundRefs)
    ensures Apply(db, RecordExecution(who, request, refund, key)).1 == Done(false) <==>
              && who.admin && request in db.requests && db.requests[request].status == Approved
              && refund !in db.refundRefs && (forall q | q in db.executions :: db.executions[q].key != key)
  {
    KeyFree(db.executions, key);
    if request in db.requests && db.requests[request].status == Approved { ExecutionsNamed(db, request, refund); }
  }

  /** It is replayed exactly for an executed request under its own key. */
  lemma ExecutedAgain(db: Database, who: Identity, request: string, refund: string, key: string)
    requires RefundsWf(db.requests, db.decisions, db.executions, db.refundRefs)
    ensures Apply(db, RecordExecution(who, request, refund, key)).1 == Done(true) <==>
              && who.admin && request in db.requests && db.requests[request].status == Executed
              && request in db.executions && db.executions[request].key == key
  {
    if request in db.requests && db.requests[request].status == Approved { ExecutionsNamed(db, request, refund); }
  }

  lemma ExecutedWrites(db: Database, who: Identity, request: string, refund: string, key: string)
    requires RefundsWf(db.requests, db.decisions, db.executions, db.refundRefs)
    ensures var (after, r) := Apply(db, RecordExecution(who, request, refund, key));
            && (r != Done(false) ==> after == db)
            && (r == Done(false) ==>
                  && request in db.requests && request in after.requests
                  && after.refundRefs == db.refundRefs[refund := request]
                  && after.executions == db.executions[request := ExecutionRow(key, refund, db.requests[request].money,
                                                                               db.requests[request].target)]
                  && after.requests[request].status == Executed)
  {
    if request in db.requests && db.requests[request].status == Approved { ExecutionsNamed(db, request, refund); }
  }

  /** In every run: evidence of an execution is taken exactly as said above. */
  lemma ExecutedExactly(cs: seq<Command>, who: Identity, request: string, refund: string, key: string)
    ensures var db := Run(Empty(), cs);
            && (Apply(db, RecordExecution(who, request, refund, key)).1 == Done(false) <==>
                  && who.admin && request in db.requests && db.requests[request].status == Approved
                  && refund !in db.refundRefs && (forall q | q in db.executions :: db.executions[q].key != key))
            && (Apply(db, RecordExecution(who, request, refund, key)).1 == Done(true) <==>
                  && who.admin && request in db.requests && db.requests[request].status == Executed
                  && request in db.executions && db.executions[request].key == key)
  {
    RunWf(cs);
    ExecutedFirst(Run(Empty(), cs), who, request, refund, key);
    ExecutedAgain(Run(Empty(), cs), who, request, refund, key);
  }
}
