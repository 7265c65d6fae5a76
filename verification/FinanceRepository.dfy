/** The finance repository as an object: each method is one transaction that inserts
    and updates rows in turn and restores the tables when a statement is refused. */
module FinanceRepository {
  import opened FinanceModel

  class Repository {
    var db: Database

    constructor ()
      ensures db == Empty()
    {
      db := Empty();
    }

    method ProjectPayment(id: string, e: Event) returns (outcome: Outcome)
      requires PaymentKind(e.kind)
      modifies this
      ensures (db, outcome) == Project(old(db), id, e)
    {
      var mapping := Mapping(db, e.reference);
      if mapping.None? || e.amount.None? || e.currency.None? { return RecordedOnly(EventUnmatched); }
      if mapping.value.money.amount != e.amount.value || mapping.value.money.currency != e.currency.value {
        return RecordedOnly(EventMismatch);
      }
      var order, money := mapping.value.order, mapping.value.money;
      if id !in db.gateway {
        db := db.(gateway := db.gateway[id := GatewayRow(order, e.kind, money)]);
      }
      var key := ProjectionKey(order, id, StatusOf(e.kind));
      if key !in db.projections {
        db := db.(projections := db.projections[key := money]);
      }
      if e.kind == "payment.captured" && order !in db.financial {
        db := db.(financial := db.financial[order := FinancialRow(money, db.orders[order].creator)]);
      }
      return Projected(StatusOf(e.kind));
    }

    method ReconcileRefund(id: string, e: Event) returns (outcome: Outcome)
      requires e.kind == "refund.processed"
      modifies this
      ensures (db, outcome) == Project(old(db), id, e)
    {
      var q := ExecutedRequest(db, e.refund);
      if q.None? { return RecordedOnly(RefundUnmatched); }
      var row := db.requests[q.value];
      if e.amount.None? || e.currency.None? || e.amount.value != row.money.amount
         || e.currency.value != row.money.currency {
        return RecordedOnly(RefundMismatch);
      }
      if id !in db.gateway {
        db := db.(gateway := db.gateway[id := GatewayRow(row.order, e.kind, row.money)]);
      }
      var key := ProjectionKey(row.order, id, "reversed");
      if key !in db.projections {
        db := db.(projections := db.projections[key := row.money]);
      }
      db := db.(synchronized := db.synchronized + {e.refund.value});
      return Reconciled;
    }

    method ProjectEvent(id: string, e: Event) returns (outcome: Outcome)
      modifies this
      ensures (db, outcome) == Project(old(db), id, e)
    {
      if !PaymentKind(e.kind) && e.kind != "refund.processed" { return Unsupported; }
      if e.kind == "refund.processed" {
        outcome := ReconcileRefund(id, e);
      } else {
        outcome := ProjectPayment(id, e);
      }
    }

    method IngestGatewayEvent(id: string, e: Event) returns (reply: Reply)
      modifies this
      ensures (db, reply) == Apply(old(db), Ingest(id, e))
    {
      if id in db.receipts { return Received(Duplicate); }
      db := db.(receipts := db.receipts[id := e]);
      var outcome := ProjectEvent(id, e);
      return Received(outcome);
    }

    method ReprocessReceipt(id: string) returns (reply: Reply)
      modifies this
      ensures (db, reply) == Apply(old(db), Reprocess(id))
    {
      if id !in db.receipts { return Refused(NotFound); }
      var outcome := ProjectEvent(id, db.receipts[id]);
      return Received(outcome);
    }

    method PreparePaymentIntent(order: string, reference: string, amount: int, currency: string) returns (reply: Reply)
      modifies this
      ensures (db, reply) == Apply(old(db), PrepareIntent(order, reference, amount, currency))
    {
      if !(0 < amount <= MaxMinorUnits) { return Refused(AmountRange); }
      if |currency| != 3 { return Refused(CurrencyFormat); }
      if OrderReferencedElsewhere(db.references, order, reference) { return Refused(OrderReferenced); }
      if reference in db.references {
        if db.references[reference] != order { return Refused(ReferenceTaken); }
        if reference !in db.intents { return Refused(Inconsistent); }
        var intent := db.intents[reference];
        if intent.money.amount != amount || intent.money.currency != currency { return Refused(IntentDiffers); }
        return Done(true);
      }
      var begin := db;
      db := db.(references := db.references[reference := order]);
      if !CurrencyCode(currency) {
        db := begin;
        return Refused(CheckViolation);
      }
      if order !in db.orders {
        db := begin;
        return Refused(ForeignKeyViolation);
      }
      db := db.(intents := db.intents[reference := IntentRow(order, Money(amount, currency))]);
      return Done(false);
    }

    method RequestRefund(who: Identity, order: string, amount: int, currency: string, target: string, key: string)
      returns (reply: Reply)
      modifies this
      ensures (db, reply) == Apply(old(db), Command.RequestRefund(who, order, amount, currency, target, key))
    {
      var role := ActorRole(db, who, order);
      if role.Err? { return Refused(role.error); }
      if role.value != Admin && role.value != Customer { return Refused(Forbidden); }
      if amount <= 0 || !CurrencyCode(currency) { return Refused(CheckViolation); }
      if key !in db.requests {
        db := db.(requests := db.requests[key := RequestRow(order, who.account, Money(amount, currency), target, Requested)]);
        return Done(false);
      }
      var row := db.requests[key];
      if row.order != order || row.requester != who.account || row.money.amount != amount
         || row.money.currency != currency || row.target != target {
        return Refused(KeyReused);
      }
      return Done(true);
    }

    method DecideRefund(who: Identity, request: string, decision: string) returns (reply: Reply)
      modifies this
      ensures (db, reply) == Apply(old(db), Command.DecideRefund(who, request, decision))
    {
      if !who.admin { return Refused(Forbidden); }
      if request !in db.requests { return Refused(NotFound); }
      var row := db.requests[request];
      if row.requester == who.account { return Refused(SelfApproval); }
      if row.status != Requested { return Refused(AlreadyDecided); }
      if !who.activeAdmin { return Refused(Forbidden); }
      if decision != "approved" && decision != "rejected" { return Refused(CheckViolation); }
      if request in db.decisions { return Refused(UniqueViolation); }
      db := db.(decisions := db.decisions[request := DecisionRow(who.account, decision)]);
      db := db.(requests := db.requests[request := row.(status := if decision == "approved" then Approved else Rejected)]);
      return Done(false);
    }

    method RecordRefundExecution(who: Identity, request: string, refund: string, key: string) returns (reply: Reply)
      modifies this
      ensures (db, reply) == Apply(old(db), RecordExecution(who, request, refund, key))
    {
      if !who.admin { return Refused(Forbidden); }
      if request !in db.requests { return Refused(NotFound); }
      var row := db.requests[request];
      if row.status == Executed {
        if request in db.executions && db.executions[request].key == key { return Done(true); }
        return Refused(AlreadyExecuted);
      }
      if row.status != Approved || request !in db.decisions { return Refused(NotApproved); }
      if refund in db.refundRefs && db.refundRefs[refund] != request { return Refused(RefundIdTaken); }
      if RequestReferencedElsewhere(db.refundRefs, request, refund) { return Refused(UniqueViolation); }
      var begin := db;
      db := db.(refundRefs := db.refundRefs[refund := request]);
      if !SeparatelyApproved(begin, request) {
        db := begin;
        return Refused(CheckViolation);
      }
      if KeyUsed(db.executions, key) {
        if request !in db.executions || db.executions[request].key != key {
          db := begin;
          return Refused(KeyReused);
        }
        return Done(true);
      }
      if request in db.executions {
        db := begin;
        return Refused(UniqueViolation);
      }
      db := db.(executions := db.executions[request := ExecutionRow(key, refund, row.money, row.target)]);
      db := db.(requests := db.requests[request := row.(status := Executed)]);
      return Done(false);
    }
  }
}
