/** Late binding converges: what is projected depends on the receipts and the mappings,
    not on the order in which they arrived, and a re-drive of projected evidence adds
    nothing. */
module FinanceConvergence {
  import opened FinanceModel
  import opened FinanceRuns

  /** Every receipt that deserves a gateway event has it. */
  predicate Current(db: Database) {
    forall r | r in db.receipts :: Expected(db, db.receipts[r]).Some? ==> r in db.gateway
  }

  /** The receipts and everything a receipt is matched against. */
  predicate SameEvidence(a: Database, b: Database) {
    && a.orders == b.orders && a.receipts == b.receipts && a.references == b.references && a.intents == b.intents
    && a.requests == b.requests && a.executions == b.executions && a.refundRefs == b.refundRefs
  }

  lemma SameGateway(a: Database, b: Database)
    requires Wf(a) && Wf(b) && SameEvidence(a, b) && Current(a) && Current(b)
    ensures a.gateway == b.gateway
  {
    forall r ensures r in a.gateway <==> r in b.gateway
             ensures r in a.gateway ==> a.gateway[r] == b.gateway[r] {
      if r in a.receipts { ExpectedUnchanged(a, b, a.receipts[r]); }
    }
  }

  lemma ProjectionsDetermined(gateway: map<string, GatewayRow>, p: map<ProjectionKey, Money>, q: map<ProjectionKey, Money>)
    requires ProjectionsWf(gateway, p) && ProjectionsWf(gateway, q)
    ensures p == q
  {
    forall k | k in p ensures k in q && p[k] == q[k] { assert KeyOf(k.event, gateway[k.event]) == k; }
    forall k | k in q ensures k in p { assert KeyOf(k.event, gateway[k.event]) == k; }
  }

  lemma FinancialDetermined(orders: map<string, OrderRow>, gateway: map<string, GatewayRow>,
                            p: map<string, FinancialRow>, q: map<string, FinancialRow>)
    requires FinancialWf(orders, gateway, p) && FinancialWf(orders, gateway, q)
    ensures p == q
  {
    forall o | o in p ensures o in q && p[o] == q[o] {
      var g :| Captures(gateway, g, o);
    }
    forall o | o in q ensures o in p {
      var g :| Captures(gateway, g, o);
    }
  }

  /** Two histories that hold the same receipts and mappings, each with nothing left to
      re-drive, show the same gateway events, projections and financial requests. */
  lemma Convergence(cs: seq<Command>, ds: seq<Command>)
    requires SameEvidence(Run(Empty(), cs), Run(Empty(), ds))
    requires Current(Run(Empty(), cs)) && Current(Run(Empty(), ds))
    ensures Run(Empty(), cs).gateway == Run(Empty(), ds).gateway
    ensures Run(Empty(), cs).projections == Run(Empty(), ds).projections
    ensures Run(Empty(), cs).financial == Run(Empty(), ds).financial
  {
    var a, b := Run(Empty(), cs), Run(Empty(), ds);
    RunWf(cs);
    RunWf(ds);
    SameGateway(a, b);
    ProjectionsDetermined(a.gateway, a.projections, b.projections);
    FinancialDetermined(a.orders, a.gateway, a.financial, b.financial);
  }

  lemma ProjectKeepsCurrent(db: Database, id: string, e: Event)
    requires forall r | r in db.receipts && r != id :: Expected(db, db.receipts[r]).Some? ==> r in db.gateway
    requires id in db.receipts && db.receipts[id] == e
    ensures Current(Project(db, id, e).0) && SameEvidence(db, Project(db, id, e).0)
  {
    var after := Project(db, id, e).0;
    ProjectTables(db, id, e);
    assert SameEvidence(db, after);
    forall r | r in after.receipts ensures Expected(after, after.receipts[r]).Some? ==> r in after.gateway {
      ExpectedUnchanged(after, db, after.receipts[r]);
    }
  }

  /** A delivery keeps the tables current, whatever it brings. */
  lemma IngestKeepsCurrent(db: Database, id: string, e: Event)
    requires Current(db)
    ensures Current(ApplyIngest(db, id, e).0)
  {
    if id !in db.receipts {
      var received := db.(receipts := db.receipts[id := e]);
      forall r | r in received.receipts && r != id
        ensures Expected(received, received.receipts[r]).Some? ==> r in received.gateway
      {
        ExpectedUnchanged(db, received, db.receipts[r]);
      }
      ProjectKeepsCurrent(received, id, e);
    }
  }

  /** Re-driving the one receipt that was behind makes the tables current. */
  lemma ReprocessCatchesUp(db: Database, id: string)
    requires id in db.receipts
    requires forall r | r in db.receipts && r != id :: Expected(db, db.receipts[r]).Some? ==> r in db.gateway
    ensures Current(ApplyReprocess(db, id).0) && SameEvidence(db, ApplyReprocess(db, id).0)
  {
    ProjectKeepsCurrent(db, id, db.receipts[id]);
  }

  /** The receipt deserves a gateway event and has none. */
  predicate Behind(db: Database, r: string) {
    r in db.receipts && Expected(db, db.receipts[r]).Some? && r !in db.gateway
  }

  /** Re-driving the receipts in the given order; an unknown one is refused. */
  function Redriven(db: Database, ids: seq<string>): Database
    decreases |ids|
  {
    if ids == [] then db else Redriven(ApplyReprocess(db, ids[0]).0, ids[1..])
  }

  lemma ReprocessProgress(db: Database, id: string)
    ensures var after := ApplyReprocess(db, id).0;
            SameEvidence(db, after) && forall r :: Behind(after, r) <==> Behind(db, r) && r != id
  {
    if id in db.receipts {
      var after := ApplyReprocess(db, id).0;
      ProjectTables(db, id, db.receipts[id]);
      forall r ensures Behind(after, r) <==> Behind(db, r) && r != id {
        if r in db.receipts { ExpectedUnchanged(db, after, db.receipts[r]); }
      }
    }
  }

  /** Re-driving whatever is behind, in any order and among whatever else, leaves nothing
      behind, for every database. */
  lemma {:induction false} RedriveCatchesUp(db: Database, ids: seq<string>)
    requires forall r | Behind(db, r) :: r in ids
    ensures Current(Redriven(db, ids)) && SameEvidence(db, Redriven(db, ids))
    decreases |ids|
  {
    if ids == [] {
      forall r | r in db.receipts ensures Expected(db, db.receipts[r]).Some? ==> r in db.gateway {
        assert !Behind(db, r);
      }
    } else {
      ReprocessProgress(db, ids[0]);
      RedriveCatchesUp(ApplyReprocess(db, ids[0]).0, ids[1..]);
    }
  }

  lemma {:induction false} RedrivenWf(db: Database, ids: seq<string>)
    requires Wf(db)
    ensures Wf(Redriven(db, ids))
    decreases |ids|
  {
    if ids != [] {
      StepWf(db, Reprocess(ids[0]));
      RedrivenWf(ApplyReprocess(db, ids[0]).0, ids[1..]);
    }
  }

  /** And the order does not show in what is projected. */
  lemma RedriveOrderFree(db: Database, ids: seq<string>, js: seq<string>)
    requires Wf(db) && forall r | Behind(db, r) :: r in ids && r in js
    ensures Redriven(db, ids).gateway == Redriven(db, js).gateway
    ensures Redriven(db, ids).projections == Redriven(db, js).projections
    ensures Redriven(db, ids).financial == Redriven(db, js).financial
  {
    var a, b := Redriven(db, ids), Redriven(db, js);
    RedriveCatchesUp(db, ids);
    RedriveCatchesUp(db, js);
    RedrivenWf(db, ids);
    RedrivenWf(db, js);
    SameGateway(a, b);
    ProjectionsDetermined(a.gateway, a.projections, b.projections);
    FinancialDetermined(a.orders, a.gateway, a.financial, b.financial);
  }

  /** Redelivery of a known event is a no-op; so is a re-drive of a projected receipt,
      but for the synchronized mark of its refund. */
  lemma RepeatsAddNothing(db: Database, id: string, e: Event)
    requires Wf(db)
    ensures id in db.receipts ==> Apply(db, Ingest(id, e)) == (db, Received(Duplicate))
    ensures id in db.gateway ==>
      var after := Apply(db, Reprocess(id)).0; after == db.(synchronized := after.synchronized)
  {
    if id in db.gateway { RedriveAddsNothing(db, id, db.receipts[id]); }
  }

  lemma PrepareIndependent(db: Database, x: Database, order: string, reference: string, amount: int, currency: string)
    requires x.orders == db.orders && x.references == db.references && x.intents == db.intents
    ensures var p := ApplyPrepareIntent(db, order, reference, amount, currency).0;
            ApplyPrepareIntent(x, order, reference, amount, currency).0
            == x.(references := p.references, intents := p.intents)
  {
    var money := Money(amount, currency);
    var reply := PrepareReply(db.orders, db.references, db.intents, order, reference, money);
    assert PrepareReply(x.orders, x.references, x.intents, order, reference, money) == reply;
    if reply != Done(false) {
      assert ApplyPrepareIntent(x, order, reference, amount, currency).0 == x;
      assert ApplyPrepareIntent(db, order, reference, amount, currency).0 == db;
    }
  }

  lemma RedriveOfPayment(db: Database, id: string, e: Event)
    requires Wf(db) && PaymentKind(e.kind) && id in db.gateway && db.receipts[id] == e
    ensures ApplyReprocess(db, id).0 == db
  {
    RedriveAddsNothing(db, id, e);
    ProjectTables(db, id, e);
  }

  /** The event was matched on arrival: registering an intent afterwards changes nothing for it. */
  lemma EarlyMatch(db: Database, id: string, e: Event, order: string, reference: string, amount: int, currency: string)
    requires Wf(db) && id !in db.receipts && PaymentKind(e.kind)
    requires Expected(db, e).Some?
    ensures var p := ApplyPrepareIntent(db, order, reference, amount, currency).0;
            ApplyIngest(p, id, e).0 == ApplyIngest(db, id, e).0.(references := p.references, intents := p.intents)
  {
    var p := ApplyPrepareIntent(db, order, reference, amount, currency).0;
    var received, both := db.(receipts := db.receipts[id := e]), p.(receipts := p.receipts[id := e]);
    PrepareGrows(db, order, reference, amount, currency);
    ExpectedStays(db, p, e);
    ExpectedUnchanged(db, received, e);
    ExpectedUnchanged(p, both, e);
    ProjectTables(received, id, e);
    ProjectTables(both, id, e);
  }

  /** An event delivered before its intent is registered and re-driven afterwards ends
      in the very tables that registering first would have produced. */
  lemma LateBinding(db: Database, id: string, e: Event, order: string, reference: string, amount: int, currency: string)
    requires Wf(db) && id !in db.receipts && PaymentKind(e.kind)
    ensures var ingested := ApplyIngest(db, id, e).0;
            var bound := ApplyPrepareIntent(ingested, order, reference, amount, currency).0;
            var prepared := ApplyPrepareIntent(db, order, reference, amount, currency).0;
            ApplyReprocess(bound, id).0 == ApplyIngest(prepared, id, e).0
  {
    var received := db.(receipts := db.receipts[id := e]);
    var ingested := ApplyIngest(db, id, e).0;
    ExpectedUnchanged(db, received, e);
    ProjectTables(received, id, e);
    PrepareIndependent(db, ingested, order, reference, amount, currency);
    if Expected(db, e).Some? {
      EarlyMatch(db, id, e, order, reference, amount, currency);
      IngestWf(db, id, e);
      PrepareStepWf(ingested, order, reference, amount, currency);
      RedriveOfPayment(ApplyPrepareIntent(ingested, order, reference, amount, currency).0, id, e);
    }
  }
}
