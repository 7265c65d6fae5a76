/** The refund chain over whole runs: what must stand behind a reversed projection. */
module FinanceRefunds {
  import opened Wrappers
  import opened FinanceModel
  import opened FinanceRuns

  /** A request that went the whole way, and its single decision and execution. */
  predicate Chain(db: Database, q: string, order: string, money: Money) {
    && q in db.requests && db.requests[q].order == order && db.requests[q].money == money
    && db.requests[q].status == Executed
    && q in db.decisions && db.decisions[q].decision == "approved"
    && db.decisions[q].approver != db.requests[q].requester
    && q in db.executions && db.executions[q].money == money && db.executions[q].target == db.requests[q].target
  }

  lemma ReversedEvent(db: Database, k: ProjectionKey)
    requires Wf(db) && k in db.projections && k.status == "reversed"
    ensures k.event in db.receipts && RefundMatch(db, db.receipts[k.event]).Ok?
    ensures RefundMatch(db, db.receipts[k.event]).value.order == k.order
    ensures RefundMatch(db, db.receipts[k.event]).value.money == db.projections[k]
  {
    assert Expected(db, db.receipts[k.event]) == Some(db.gateway[k.event]);
    assert !PaymentKind(db.receipts[k.event].kind);
  }

  lemma MatchedChain(db: Database, e: Event)
    requires RefundsWf(db.requests, db.decisions, db.executions, db.refundRefs) && RefundMatch(db, e).Ok?
    ensures exists q :: Chain(db, q, RefundMatch(db, e).value.order, RefundMatch(db, e).value.money)
  {
    var q := ExecutedRequest(db, e.refund).value;
    assert Chain(db, q, RefundMatch(db, e).value.order, RefundMatch(db, e).value.money);
  }

  /** A reversed projection exists only for the order, amount and currency of a request
      that was approved by someone else and executed. */
  lemma ReversedIsExecuted(cs: seq<Command>, k: ProjectionKey)
    requires var db := Run(Empty(), cs);
             k in db.projections && k.status == "reversed"
    ensures var db := Run(Empty(), cs);
            exists q :: Chain(db, q, k.order, db.projections[k])
  {
    var db := Run(Empty(), cs);
    RunWf(cs);
    ReversedEvent(db, k);
    MatchedChain(db, db.receipts[k.event]);
  }

  /** An accepted decision taken in the run by an authorized administrator. */
  predicate DecidedAt(cs: seq<Command>, i: int, q: string, row: DecisionRow) {
    && 0 <= i < |cs| && cs[i].DecideRefund? && cs[i].request == q && cs[i].decision == row.decision
    && cs[i].who.account == row.approver && cs[i].who.admin && cs[i].who.activeAdmin
  }

  predicate ExecutedAt(cs: seq<Command>, i: int, q: string, row: ExecutionRow) {
    0 <= i < |cs| && cs[i].RecordExecution? && cs[i].request == q && cs[i].key == row.key
    && cs[i].refund == row.reference && cs[i].who.admin
  }

  lemma StepDecision(db: Database, c: Command, q: string)
    requires Apply(db, c).0.decisions != db.decisions
    requires q in Apply(db, c).0.decisions && !(q in db.decisions && db.decisions[q] == Apply(db, c).0.decisions[q])
    ensures DecidedAt([c], 0, q, Apply(db, c).0.decisions[q])
  {
    assert c.DecideRefund?;
  }

  lemma StepExecution(db: Database, c: Command, q: string)
    requires Apply(db, c).0.executions != db.executions
    requires q in Apply(db, c).0.executions && !(q in db.executions && db.executions[q] == Apply(db, c).0.executions[q])
    ensures ExecutedAt([c], 0, q, Apply(db, c).0.executions[q])
  {
    assert c.RecordExecution?;
    var after := ApplyRecordExecution(db, c.who, c.request, c.refund, c.key).0;
    assert after != db && after == Executing(db, c.request, c.refund, c.key);
    assert q == c.request;
  }

  /** Every decision on file was made in the run by an active administrator, and every
      execution recorded by one. */
  lemma {:induction false} ByAdministrators(cs: seq<Command>, q: string)
    ensures var db := Run(Empty(), cs);
            && (q in db.decisions ==> exists i :: DecidedAt(cs, i, q, db.decisions[q]))
            && (q in db.executions ==> exists i :: ExecutedAt(cs, i, q, db.executions[q]))
  {
    if cs != [] {
      var n := |cs| - 1;
      var before, after := Run(Empty(), cs[..n]), Run(Empty(), cs);
      ByAdministrators(cs[..n], q);
      if q in after.decisions {
        if q in before.decisions && before.decisions[q] == after.decisions[q] {
          var i :| DecidedAt(cs[..n], i, q, after.decisions[q]);
          assert DecidedAt(cs, i, q, after.decisions[q]);
        } else {
          StepDecision(before, cs[n], q);
          assert DecidedAt(cs, n, q, after.decisions[q]);
        }
      }
      if q in after.executions {
        if q in before.executions && before.executions[q] == after.executions[q] {
          var i :| ExecutedAt(cs[..n], i, q, after.executions[q]);
          assert ExecutedAt(cs, i, q, after.executions[q]);
        } else {
          StepExecution(before, cs[n], q);
          assert ExecutedAt(cs, n, q, after.executions[q]);
        }
      }
    }
  }

  lemma DecisionMoves(db: Database, who: Identity, request: string, decision: string, q: string)
    requires q in db.requests
    ensures var after := ApplyDecideRefund(db, who, request, decision).0;
            q in after.requests && Moved(db.requests[q].status, after.requests[q].status)
  {
  }

  lemma ExecutionMoves(db: Database, who: Identity, request: string, refund: string, key: string, q: string)
    requires q in db.requests
    ensures var after := ApplyRecordExecution(db, who, request, refund, key).0;
            q in after.requests && Moved(db.requests[q].status, after.requests[q].status)
  {
    var refusal := ExecutionRefusal(db, who, request, refund, key);
    if refusal.None? && db.requests[request].status != Executed {
      assert db.requests[request].status == Approved;
    }
  }

  lemma StepMoves(db: Database, c: Command, q: string)
    requires q in db.requests
    ensures q in Apply(db, c).0.requests && Moved(db.requests[q].status, Apply(db, c).0.requests[q].status)
  {
    match c {
      case RequestRefund(who, order, amount, currency, target, key) =>
        var after := ApplyRequestRefund(db, who, order, amount, currency, target, key).0;
        assert after.requests != db.requests ==> key !in db.requests;
      case DecideRefund(who, request, decision) => DecisionMoves(db, who, request, decision, q);
      case RecordExecution(who, request, refund, key) => ExecutionMoves(db, who, request, refund, key, q);
      case _ => assert Apply(db, c).0.requests == db.requests;
    }
  }

  /** The statuses a request may still reach. */
  predicate Reaches(s: RefundStatus, t: RefundStatus) {
    match s
    case Requested => true
    case Approved => t == Approved || t == Executed
    case Rejected => t == Rejected
    case Executed => t == Executed
  }

  /** A request moves only from requested to approved or rejected and from approved to
      executed; a rejected or executed request stays as it is. */
  lemma {:induction false} StatusOnlyAdvances(cs: seq<Command>, i: nat, q: string)
    requires i <= |cs| && q in Run(Empty(), cs[..i]).requests
    ensures q in Run(Empty(), cs).requests
    ensures Reaches(Run(Empty(), cs[..i]).requests[q].status, Run(Empty(), cs).requests[q].status)
    decreases |cs| - i
  {
    if i == |cs| {
      assert cs[..i] == cs;
    } else {
      var db := Run(Empty(), cs[..i]);
      StepMoves(db, cs[i], q);
      assert cs[..i + 1][..i] == cs[..i];
      StatusOnlyAdvances(cs, i + 1, q);
    }
  }
}
