/** Exactly-once commands and the fenced outbox, over whole runs of the store. */
module ReferenceRuns {
  import opened Wrappers
  import opened ReferenceModel

  // ------------------------------------------------------------- history grows

  /** Every row is still there, unchanged. */
  ghost predicate Kept<K, V>(m: map<K, V>, m': map<K, V>) {
    forall k | k in m :: k in m' && m'[k] == m[k]
  }

  ghost predicate OrdersKept(m: map<string, OrderRow>, m': map<string, OrderRow>) {
    forall o | o in m :: o in m' && m'[o].(state := m[o].state) == m[o]
  }

  ghost predicate RefundsKept(m: map<string, RefundRow>, m': map<string, RefundRow>) {
    forall r | r in m :: r in m' && m'[r].(approvedBy := None) == m[r].(approvedBy := None)
                         && (m[r].approvedBy.Some? ==> m'[r] == m[r])
  }

  ghost predicate GrantsKept(m: map<string, GrantRow>, m': map<string, GrantRow>) {
    forall g | g in m :: g in m' && m'[g].(used := m[g].used) == m[g]
  }

  /** What no command ever takes back. */
  ghost predicate Grows(db: Database, db': Database) {
    && Kept(db.commands, db'.commands)
    && Kept(db.events, db'.events)
    && Kept(db.payments, db'.payments)
    && Kept(db.reservations, db'.reservations)
    && Kept(db.vehicles, db'.vehicles)
    && Kept(db.assignments, db'.assignments)
    && OrdersKept(db.orders, db'.orders)
    && RefundsKept(db.refunds, db'.refunds)
    && GrantsKept(db.grants, db'.grants)
  }

  lemma Same(db: Database)
    ensures Grows(db, db)
  {
  }

  lemma KeptInsert<K, V>(m: map<K, V>, k: K, v: V)
    requires k !in m
    ensures Kept(m, m[k := v])
  {
  }

  lemma CreateGrows(db: Database, p: Principal, order: string, key: string)
    ensures Grows(db, ApplyCreateOrder(db, p, order, key).0)
  {
    Same(db);
    var k := CommandKey(p.tenant, p.account, CreateAction, key);
    if k !in db.commands { KeptInsert(db.commands, k, CommandRow(OrderPayload(order), order)); }
  }

  lemma AssignGrows(db: Database, p: Principal, order: string, vehicle: string, key: string, fail: bool)
    ensures Grows(db, ApplyAssign(db, p, order, vehicle, key, fail).0)
  {
    Same(db);
    var db' := ApplyAssign(db, p, order, vehicle, key, fail).0;
    var k := CommandKey(p.tenant, p.account, AssignAction, key);
    if db' != db {
      KeptInsert(db.commands, k, CommandRow(AssignPayload(order, vehicle), order));
      KeptInsert(db.assignments, order, AssignmentRow(vehicle, db.vehicles[vehicle].vendor));
      assert OrdersKept(db.orders, db.orders[order := db.orders[order].(state := Assigned)]);
    }
  }

  lemma PaymentKeeps(db: Database, signed: bool, d: EventData)
    ensures Kept(db.events, ApplyPayment(db, signed, d).0.events)
    ensures Kept(db.payments, ApplyPayment(db, signed, d).0.payments)
  {
    if d.event !in db.events { KeptInsert(db.events, d.event, d); }
    if d.payment !in db.payments { KeptInsert(db.payments, d.payment, PaymentRow(d.tenant, d.order, d.amount)); }
  }

  lemma PaymentGrows(db: Database, signed: bool, d: EventData)
    ensures Grows(db, ApplyPayment(db, signed, d).0)
  {
    Same(db);
    PaymentKeeps(db, signed, d);
    var db' := ApplyPayment(db, signed, d).0;
    assert db' == db.(payments := db'.payments, audit := db'.audit, events := db'.events);
  }

  lemma RefundGrows(db: Database, c: Command)
    requires c.RequestRefund? || c.ApproveRefund?
    ensures Grows(db, Apply(db, c).0)
  {
    Same(db);
    assert RefundsKept(db.refunds, Apply(db, c).0.refunds);
  }

  lemma ReserveGrows(db: Database, p: Principal, g: string, r: string,
                     endpoint: string, model: string, units: int, now: int)
    ensures Grows(db, ApplyReserveAgent(db, p, g, r, endpoint, model, units, now).0)
  {
    Same(db);
    var db' := ApplyReserveAgent(db, p, g, r, endpoint, model, units, now).0;
    if db' != db {
      KeptInsert(db.reservations, r, ReservationRow(g, units));
      assert GrantsKept(db.grants, db.grants[g := db.grants[g].(used := true)]);
    }
  }

  lemma SeedGrows(db: Database, c: Command)
    requires c.SeedVehicle? || c.SeedGrant? || c.ClaimJob? || c.Acknowledge?
    ensures Grows(db, Apply(db, c).0)
  {
    Same(db);
    if c.SeedVehicle? && c.vehicle !in db.vehicles { KeptInsert(db.vehicles, c.vehicle, c.row); }
  }

  lemma StepGrows(db: Database, c: Command)
    ensures Grows(db, Apply(db, c).0)
  {
    match c
    case CreateOrder(p, order, key) => CreateGrows(db, p, order, key);
    case Assign(p, order, vehicle, key, fail) => AssignGrows(db, p, order, vehicle, key, fail);
    case Payment(signed, d) => PaymentGrows(db, signed, d);
    case RequestRefund(_, _, _) => RefundGrows(db, c);
    case ApproveRefund(_, _) => RefundGrows(db, c);
    case ReserveAgent(p, g, r, endpoint, model, units, now) => ReserveGrows(db, p, g, r, endpoint, model, units, now);
    case _ => SeedGrows(db, c);
  }

  lemma {:induction false} RunGrows(db: Database, cs: seq<Command>)
    ensures Grows(db, Run(db, cs))
  {
    if cs != [] {
      RunGrows(db, cs[..|cs| - 1]);
      StepGrows(Run(db, cs[..|cs| - 1]), cs[|cs| - 1]);
    }
  }

  lemma {:induction false} RunConcat(db: Database, a: seq<Command>, b: seq<Command>)
    ensures Run(db, a + b) == Run(Run(db, a), b)
  {
    if b == [] {
      assert a + b == a;
    } else {
      assert (a + b)[..|a + b| - 1] == a + b[..|b| - 1];
      RunConcat(db, a, b[..|b| - 1]);
    }
  }

  // ------------------------------------------------------------- exactly once

  /** Commands a client may send twice: all but the seeds and the outbox pair.
      An empty order id is the exception: its stored result reads as no result. */
  predicate Retryable(c: Command) {
    match c
    case CreateOrder(_, order, _) => order != ""
    case Assign(_, order, _, _, _) => order != ""
    case Payment(_, _) => true
    case RequestRefund(_, _, _) => true
    case ApproveRefund(_, _) => true
    case ReserveAgent(_, _, _, _, _, _, _) => true
    case _ => false
  }

  /** The trace a committed command leaves: enough to answer it again. */
  ghost predicate Settled(db: Database, c: Command) {
    match c
    case CreateOrder(p, order, key) =>
      var k := CommandKey(p.tenant, p.account, CreateAction, key);
      p.role == Customer && key != "" && k in db.commands && db.commands[k] == CommandRow(OrderPayload(order), order)
    case Assign(p, order, vehicle, key, _) =>
      var k := CommandKey(p.tenant, p.account, AssignAction, key);
      p.role == Dispatcher && key != "" && k in db.commands
      && db.commands[k] == CommandRow(AssignPayload(order, vehicle), order)
    case Payment(signed, d) => signed && d.amount > 0 && d.event in db.events && db.events[d.event] == d
    case RequestRefund(p, refund, order) =>
      p.role == Customer && order in db.orders && db.orders[order].tenant == p.tenant
      && db.orders[order].customer == p.account
      && refund in db.refunds && db.refunds[refund].(approvedBy := None) == RefundRow(p.tenant, p.account, order, None)
    case ApproveRefund(p, refund) =>
      p.role == HumanAdmin && refund in db.refunds && db.refunds[refund].tenant == p.tenant
      && db.refunds[refund].requester != p.account && db.refunds[refund].approvedBy == Some(p.account)
    case ReserveAgent(p, g, r, endpoint, model, units, now) =>
      p.role == Agent && units > 0 && g in db.grants && GrantCovers(db.grants[g], p, endpoint, model, units, now)
      && r in db.reservations && db.reservations[r] == ReservationRow(g, units)
    case _ => false
  }

  /** Every result in the command table was stored by the command it answers. */
  ghost predicate ResultsInv(db: Database) {
    forall k | k in db.commands :: db.commands[k].result == db.commands[k].fingerprint.order
  }

  lemma ResultsStep(db: Database, c: Command)
    requires ResultsInv(db)
    ensures ResultsInv(Apply(db, c).0)
  {
  }

  lemma {:induction false} ResultsRun(db: Database, cs: seq<Command>)
    requires ResultsInv(db)
    ensures ResultsInv(Run(db, cs))
  {
    if cs != [] {
      ResultsRun(db, cs[..|cs| - 1]);
      ResultsStep(Run(db, cs[..|cs| - 1]), cs[|cs| - 1]);
    }
  }

  lemma OrderSettles(db: Database, c: Command)
    requires ResultsInv(db) && Retryable(c) && (c.CreateOrder? || c.Assign?) && Apply(db, c).1.Accepted?
    ensures Settled(Apply(db, c).0, c)
  {
  }

  lemma MoneySettles(db: Database, c: Command)
    requires (c.Payment? || c.ReserveAgent?) && Apply(db, c).1.Accepted?
    ensures Settled(Apply(db, c).0, c)
  {
  }

  lemma RequestSettles(db: Database, p: Principal, refund: string, order: string)
    requires ApplyRequestRefund(db, p, refund, order).1.Accepted?
    ensures Settled(ApplyRequestRefund(db, p, refund, order).0, RequestRefund(p, refund, order))
  {
  }

  lemma ApproveSettles(db: Database, p: Principal, refund: string)
    requires ApplyApproveRefund(db, p, refund).1.Accepted?
    ensures Settled(ApplyApproveRefund(db, p, refund).0, ApproveRefund(p, refund))
  {
    var db' := ApplyApproveRefund(db, p, refund).0;
    assert db'.refunds == db.refunds[refund := db.refunds[refund].(approvedBy := Some(p.account))];
  }

  lemma AcceptedSettles(db: Database, c: Command)
    requires ResultsInv(db) && Retryable(c) && Apply(db, c).1.Accepted?
    ensures Settled(Apply(db, c).0, c)
  {
    match c
    case RequestRefund(p, refund, order) => RequestSettles(db, p, refund, order);
    case ApproveRefund(p, refund) => ApproveSettles(db, p, refund);
    case Payment(_, _) => MoneySettles(db, c);
    case ReserveAgent(_, _, _, _, _, _, _) => MoneySettles(db, c);
    case _ => OrderSettles(db, c);
  }

  lemma SettledGrows(db: Database, db': Database, c: Command)
    requires Settled(db, c) && Grows(db, db')
    ensures Settled(db', c)
  {
  }

  lemma SettledReplays(db: Database, c: Command, db0: Database)
    requires Retryable(c) && Settled(db, c)
    requires ResultsInv(db0) && Apply(db0, c).1.Accepted?
    ensures Apply(db, c) == (db, Apply(db0, c).1)
  {
  }

  /** Once a command was accepted, sending it again in any later state gives the
      same answer and changes no table. */
  lemma RetryIsStable(db: Database, c: Command, later: seq<Command>)
    requires ResultsInv(db) && Retryable(c) && Apply(db, c).1.Accepted?
    ensures var now := Run(Apply(db, c).0, later);
            Apply(now, c) == (now, Apply(db, c).1)
  {
    AcceptedSettles(db, c);
    RunGrows(Apply(db, c).0, later);
    SettledGrows(Apply(db, c).0, Run(Apply(db, c).0, later), c);
    SettledReplays(Run(Apply(db, c).0, later), c, db);
  }

  /** A retry inserted anywhere after the accepted command leaves the whole run's
      final tables as they were. */
  lemma RetryAnywhere(db: Database, before: seq<Command>, c: Command, mid: seq<Command>, after: seq<Command>)
    requires ResultsInv(db) && Retryable(c) && Apply(Run(db, before), c).1.Accepted?
    ensures Run(db, before + [c] + mid + [c] + after) == Run(db, before + [c] + mid + after)
  {
    ResultsRun(db, before);
    var first := Run(db, before);
    RunConcat(db, before, [c]);
    RunConcat(first, [], [c]);
    assert Run(first, [c]) == Apply(first, c).0;
    RunConcat(db, before + [c], mid);
    var settled := Run(db, before + [c] + mid);
    RetryIsStable(first, c, mid);
    RunConcat(db, before + [c] + mid, [c]);
    assert Run(settled, [c]) == settled;
    RunConcat(db, before + [c] + mid + [c], after);
    RunConcat(db, before + [c] + mid, after);
  }

  /** Exactly the empty order id breaks the retry of an accepted creation, in any later
      state: it is answered as a conflict. */
  lemma CreateRetryCondition(db: Database, p: Principal, order: string, key: string, later: seq<Command>)
    requires ResultsInv(db) && Apply(db, CreateOrder(p, order, key)).1.Accepted?
    ensures var now := Run(Apply(db, CreateOrder(p, order, key)).0, later);
            && (Apply(now, CreateOrder(p, order, key)) == (now, Accepted(order)) <==> order != "")
            && (order == "" ==> Apply(now, CreateOrder(p, order, key)) == (now, Rejected(Conflict)))
  {
    AcceptedCreate(db, p, order, key);
    RunGrows(Apply(db, CreateOrder(p, order, key)).0, later);
    CreateRetried(Run(Apply(db, CreateOrder(p, order, key)).0, later), p, order, key);
  }

  lemma CreateRetried(now: Database, p: Principal, order: string, key: string)
    requires p.role == Customer && key != "" && (order == "" ==> order in now.orders)
    requires var k := CommandKey(p.tenant, p.account, CreateAction, key);
             k in now.commands && now.commands[k] == CommandRow(OrderPayload(order), order)
    ensures ApplyCreateOrder(now, p, order, key) == (now, if order == "" then Rejected(Conflict) else Accepted(order))
  {
  }

  /** The same of an accepted assignment. */
  lemma AssignRetryCondition(db: Database, p: Principal, order: string, vehicle: string, key: string, fail: bool,
                             later: seq<Command>)
    requires ResultsInv(db) && Apply(db, Assign(p, order, vehicle, key, fail)).1.Accepted?
    ensures var now := Run(Apply(db, Assign(p, order, vehicle, key, fail)).0, later);
            && (Apply(now, Assign(p, order, vehicle, key, fail)) == (now, Accepted(order)) <==> order != "")
            && (order == "" ==> Apply(now, Assign(p, order, vehicle, key, fail)).1.Rejected?
                                && Apply(now, Assign(p, order, vehicle, key, fail)).0 == now)
  {
    AcceptedAssign(db, p, order, vehicle, key, fail);
    RunGrows(Apply(db, Assign(p, order, vehicle, key, fail)).0, later);
    AssignRetried(Run(Apply(db, Assign(p, order, vehicle, key, fail)).0, later), p, order, vehicle, key, fail);
  }

  lemma AssignRetried(now: Database, p: Principal, order: string, vehicle: string, key: string, fail: bool)
    requires p.role == Dispatcher && key != "" && (order == "" ==> order in now.assignments)
    requires var k := CommandKey(p.tenant, p.account, AssignAction, key);
             k in now.commands && now.commands[k] == CommandRow(AssignPayload(order, vehicle), order)
    ensures var (after, reply) := ApplyAssign(now, p, order, vehicle, key, fail);
            after == now && (if order == "" then reply.Rejected? else reply == Accepted(order))
  {
  }

  lemma AcceptedAssign(db: Database, p: Principal, order: string, vehicle: string, key: string, fail: bool)
    requires ResultsInv(db) && ApplyAssign(db, p, order, vehicle, key, fail).1.Accepted?
    ensures var k := CommandKey(p.tenant, p.account, AssignAction, key);
            var db1 := ApplyAssign(db, p, order, vehicle, key, fail).0;
            p.role == Dispatcher && key != "" && k in db1.commands && (order == "" ==> order in db1.assignments)
            && db1.commands[k] == CommandRow(AssignPayload(order, vehicle), order)
  {
  }

  /** An accepted reservation repeated later, at any clock, is answered again exactly while
      its grant has not expired. */
  lemma ReserveRetryCondition(db: Database, p: Principal, g: string, r: string, endpoint: string, model: string,
                              units: int, now: int, later: seq<Command>, clock: int)
    requires Apply(db, ReserveAgent(p, g, r, endpoint, model, units, now)).1.Accepted?
    ensures g in db.grants
    ensures var at := Run(Apply(db, ReserveAgent(p, g, r, endpoint, model, units, now)).0, later);
            Apply(at, ReserveAgent(p, g, r, endpoint, model, units, clock))
            == (at, if clock < db.grants[g].expires then Accepted("") else Rejected(GrantRejected))
  {
    var c := ReserveAgent(p, g, r, endpoint, model, units, now);
    MoneySettles(db, c);
    AcceptedReserve(db, p, g, r, endpoint, model, units, now);
    RunGrows(Apply(db, c).0, later);
    ReserveRetried(Run(Apply(db, c).0, later), p, g, r, endpoint, model, units, clock);
  }

  lemma AcceptedReserve(db: Database, p: Principal, g: string, r: string, endpoint: string, model: string,
                        units: int, now: int)
    requires ApplyReserveAgent(db, p, g, r, endpoint, model, units, now).1.Accepted?
    ensures p.role == Agent && units > 0 && g in db.grants && GrantCovers(db.grants[g], p, endpoint, model, units, now)
    ensures var after := ApplyReserveAgent(db, p, g, r, endpoint, model, units, now).0;
            && g in after.grants && after.grants[g].(used := db.grants[g].used) == db.grants[g]
            && r in after.reservations && after.reservations[r] == ReservationRow(g, units)
  {
  }

  lemma ReserveRetried(at: Database, p: Principal, g: string, r: string, endpoint: string, model: string,
                       units: int, clock: int)
    requires p.role == Agent && units > 0 && g in at.grants
    requires GrantCovers(at.grants[g], p, endpoint, model, units, at.grants[g].expires - 1)
    requires r in at.reservations && at.reservations[r] == ReservationRow(g, units)
    ensures ApplyReserveAgent(at, p, g, r, endpoint, model, units, clock)
         == (at, if clock < at.grants[g].expires then Accepted("") else Rejected(GrantRejected))
  {
  }

  /** Both failures are real: from empty tables an order with the empty id is created, and
      assigned once there is a vehicle. */
  lemma EmptyOrderIsReal(cap: int, p: Principal, d: Principal, key: string, vehicle: string, vendor: string)
    requires p.role == Customer && d.role == Dispatcher && d.tenant == p.tenant && key != ""
    ensures Apply(Empty(cap), CreateOrder(p, "", key)).1 == Accepted("")
    ensures var db := Run(Empty(cap), [SeedVehicle(vehicle, VehicleRow(p.tenant, vendor, true)), CreateOrder(p, "", key)]);
            ResultsInv(db) && Apply(db, Assign(d, "", vehicle, key, false)).1 == Accepted("")
  {
    var cs := [SeedVehicle(vehicle, VehicleRow(p.tenant, vendor, true)), CreateOrder(p, "", key)];
    var seeded := Apply(Empty(cap), cs[0]).0;
    assert cs[..1] == [cs[0]] && cs[..1][..0] == [];
    assert Run(Empty(cap), cs[..1]) == seeded;
    assert Run(Empty(cap), cs) == Apply(seeded, cs[1]).0;
    ResultsRun(Empty(cap), cs);
  }

  lemma AcceptedCreate(db: Database, p: Principal, order: string, key: string)
    requires ResultsInv(db) && ApplyCreateOrder(db, p, order, key).1.Accepted?
    ensures var k := CommandKey(p.tenant, p.account, CreateAction, key);
            var db1 := ApplyCreateOrder(db, p, order, key).0;
            p.role == Customer && key != "" && k in db1.commands
            && db1.commands[k] == CommandRow(OrderPayload(order), order)
            && (order == "" ==> order in db1.orders)
            && ApplyCreateOrder(db, p, order, key).1 == Accepted(order)
  {
  }

  /** A refused command changes nothing. */
  lemma RejectedChangesNothing(db: Database, c: Command)
    ensures Apply(db, c).1.Rejected? ==> Apply(db, c).0 == db
  {
  }

  // ------------------------------------------------------------- fenced outbox

  /** The command claims job j. */
  ghost predicate Claims(db: Database, c: Command, j: nat) {
    var reply := Apply(db, c).1;
    reply.Leased? && reply.lease.Some? && reply.lease.value.job == j
  }

  ghost predicate Acknowledges(db: Database, c: Command, j: nat) {
    c.Acknowledge? && c.lease.job == j && Apply(db, c).1.Accepted?
  }

  ghost function ClaimCount(db: Database, cs: seq<Command>, j: nat): nat {
    if cs == [] then 0
    else
      var n := |cs| - 1;
      ClaimCount(db, cs[..n], j) + (if Claims(Run(db, cs[..n]), cs[n], j) then 1 else 0)
  }

  ghost function AckCount(db: Database, cs: seq<Command>, j: nat): nat {
    if cs == [] then 0
    else
      var n := |cs| - 1;
      AckCount(db, cs[..n], j) + (if Acknowledges(Run(db, cs[..n]), cs[n], j) then 1 else 0)
  }

  /** Zero for a job that does not exist yet. */
  function Generation(db: Database, j: nat): nat {
    GenerationIn(db.outbox, j)
  }

  predicate Done(db: Database, j: nat) {
    DoneIn(db.outbox, j)
  }

  function GenerationIn(outbox: seq<OutboxRow>, j: nat): nat {
    if 1 <= j <= |outbox| then outbox[j - 1].generation else 0
  }

  predicate DoneIn(outbox: seq<OutboxRow>, j: nat) {
    1 <= j <= |outbox| && outbox[j - 1].done
  }

  /** Only claims and acknowledgements touch existing jobs; assignments add one. */
  lemma OtherCommandsKeepJobs(db: Database, c: Command)
    requires !c.ClaimJob? && !c.Acknowledge?
    ensures var outbox := Apply(db, c).0.outbox;
            outbox == db.outbox || exists s :: outbox == db.outbox + [OutboxRow(s, None, 0, false, 0)]
  {
    if c.Assign? {
      assert Apply(db, c).0.outbox == db.outbox
             || Apply(db, c).0.outbox == db.outbox + [OutboxRow(c.order, None, 0, false, 0)];
    }
  }

  lemma RowReplaced(outbox: seq<OutboxRow>, k: nat, row: OutboxRow, j: nat)
    requires k < |outbox|
    ensures GenerationIn(outbox[k := row], j) == if j == k + 1 then row.generation else GenerationIn(outbox, j)
    ensures DoneIn(outbox[k := row], j) <==> if j == k + 1 then row.done else DoneIn(outbox, j)
  {
  }

  function Claimed(row: OutboxRow, token: string, now: int, ttl: int): OutboxRow {
    row.(lease := Some(token), until := now + ttl, generation := row.generation + 1)
  }

  lemma ClaimOutcome(db: Database, token: string, now: int, ttl: int)
    ensures var k, (db', reply) := FirstClaimable(db.outbox, now, 0), ApplyClaim(db, token, now, ttl);
            if token == "" || !(0 < ttl <= 5) then db' == db && reply.Rejected?
            else if k == |db.outbox| then db' == db && reply == Leased(None)
            else db'.outbox == db.outbox[k := Claimed(db.outbox[k], token, now, ttl)]
                 && reply == Leased(Some(Lease(k + 1, db.outbox[k].generation + 1)))
  {
  }

  /** A claim raises the generation of the job it names, and of no other. */
  lemma ClaimStep(db: Database, token: string, now: int, ttl: int, j: nat)
    ensures var (db', reply) := ApplyClaim(db, token, now, ttl);
            var mine := reply.Leased? && reply.lease.Some? && reply.lease.value.job == j;
            && GenerationIn(db'.outbox, j) == GenerationIn(db.outbox, j) + (if mine then 1 else 0)
            && (DoneIn(db'.outbox, j) <==> DoneIn(db.outbox, j))
  {
    var k := FirstClaimable(db.outbox, now, 0);
    ClaimOutcome(db, token, now, ttl);
    if k < |db.outbox| { RowReplaced(db.outbox, k, Claimed(db.outbox[k], token, now, ttl), j); }
  }

  lemma AcknowledgeStep(db: Database, lease: Lease, token: string, now: int, j: nat)
    ensures var (db', reply) := ApplyAcknowledge(db, lease, token, now);
            var mine := reply.Accepted? && lease.job == j;
            && GenerationIn(db'.outbox, j) == GenerationIn(db.outbox, j)
            && (DoneIn(db'.outbox, j) <==> DoneIn(db.outbox, j) || mine)
            && (mine ==> !DoneIn(db.outbox, j) && lease.generation == GenerationIn(db.outbox, j))
            && !reply.Leased?
  {
    if LeaseCurrent(db, lease, token, now) {
      RowReplaced(db.outbox, lease.job - 1, db.outbox[lease.job - 1].(done := true), j);
    }
  }

  lemma OtherStep(db: Database, c: Command, j: nat)
    requires !c.ClaimJob? && !c.Acknowledge?
    ensures Generation(Apply(db, c).0, j) == Generation(db, j) && (Done(Apply(db, c).0, j) <==> Done(db, j))
    ensures !Apply(db, c).1.Leased?
  {
    OtherCommandsKeepJobs(db, c);
  }

  /** How one command moves one job. */
  lemma JobStep(db: Database, c: Command, j: nat)
    ensures Generation(Apply(db, c).0, j) == Generation(db, j) + (if Claims(db, c, j) then 1 else 0)
    ensures Done(Apply(db, c).0, j) <==> Done(db, j) || Acknowledges(db, c, j)
    ensures Acknowledges(db, c, j) ==> !Done(db, j) && c.lease.generation == Generation(db, j)
  {
    match c
    case ClaimJob(token, now, ttl) => ClaimStep(db, token, now, ttl, j);
    case Acknowledge(lease, token, now) => AcknowledgeStep(db, lease, token, now, j);
    case _ => OtherStep(db, c, j);
  }

  /** For arbitrary caller clocks, a job's generation is its number of claims. */
  lemma {:induction false} GenerationCountsClaims(cap: int, cs: seq<Command>, j: nat)
    ensures Generation(Run(Empty(cap), cs), j) == ClaimCount(Empty(cap), cs, j)
  {
    if cs != [] {
      var n := |cs| - 1;
      GenerationCountsClaims(cap, cs[..n], j);
      JobStep(Run(Empty(cap), cs[..n]), cs[n], j);
    }
  }

  /** At most one acknowledgement of a job ever succeeds: the one that ends it. */
  lemma {:induction false} AcknowledgedOnce(cap: int, cs: seq<Command>, j: nat)
    ensures AckCount(Empty(cap), cs, j) == if Done(Run(Empty(cap), cs), j) then 1 else 0
  {
    if cs != [] {
      var n := |cs| - 1;
      AcknowledgedOnce(cap, cs[..n], j);
      JobStep(Run(Empty(cap), cs[..n]), cs[n], j);
    }
  }

  /** And it succeeds only with the lease of the newest claim. */
  lemma AcknowledgesNewest(cap: int, cs: seq<Command>, c: Command, j: nat)
    requires Acknowledges(Run(Empty(cap), cs), c, j)
    ensures c.lease.generation == ClaimCount(Empty(cap), cs, j)
    ensures AckCount(Empty(cap), cs, j) == 0
  {
    GenerationCountsClaims(cap, cs, j);
    AcknowledgedOnce(cap, cs, j);
    JobStep(Run(Empty(cap), cs), c, j);
  }

  predicate LeaseAdvances(row: OutboxRow, row': OutboxRow) {
    row.lease.Some? ==> row'.lease.Some? && row'.until >= row.until
  }

  lemma ClaimLease(db: Database, token: string, now: int, ttl: int, i: nat)
    requires i < |db.outbox|
    ensures var outbox := ApplyClaim(db, token, now, ttl).0.outbox;
            i < |outbox| && LeaseAdvances(db.outbox[i], outbox[i])
  {
    var k := FirstClaimable(db.outbox, now, 0);
    if k < |db.outbox| { assert Claimable(db.outbox[k], now); }
  }

  lemma AcknowledgeLease(db: Database, lease: Lease, token: string, now: int, i: nat)
    requires i < |db.outbox|
    ensures var outbox := ApplyAcknowledge(db, lease, token, now).0.outbox;
            i < |outbox| && LeaseAdvances(db.outbox[i], outbox[i])
  {
    if LeaseCurrent(db, lease, token, now) {
      assert LeaseAdvances(db.outbox[lease.job - 1], db.outbox[lease.job - 1].(done := true));
    }
  }

  /** The expiry of a job's lease never moves back. */
  lemma LeaseStep(db: Database, c: Command, j: nat)
    requires 1 <= j <= |db.outbox| && db.outbox[j - 1].lease.Some?
    ensures var db' := Apply(db, c).0;
            j <= |db'.outbox| && db'.outbox[j - 1].lease.Some? && db'.outbox[j - 1].until >= db.outbox[j - 1].until
  {
    match c
    case ClaimJob(token, now, ttl) => ClaimLease(db, token, now, ttl, j - 1);
    case Acknowledge(lease, token, now) => AcknowledgeLease(db, lease, token, now, j - 1);
    case _ => OtherCommandsKeepJobs(db, c);
  }

  lemma {:induction false} LeaseRun(db: Database, cs: seq<Command>, j: nat)
    requires 1 <= j <= |db.outbox| && db.outbox[j - 1].lease.Some?
    ensures var db' := Run(db, cs);
            j <= |db'.outbox| && db'.outbox[j - 1].lease.Some? && db'.outbox[j - 1].until >= db.outbox[j - 1].until
  {
    if cs != [] {
      LeaseRun(db, cs[..|cs| - 1], j);
      LeaseStep(Run(db, cs[..|cs| - 1]), cs[|cs| - 1], j);
    }
  }

  /** No unexpired lease is superseded: a later claim of the same job, whatever
      happened between, is made at or after the earlier lease's expiry. */
  lemma LeaseRespected(db: Database, first: Command, mid: seq<Command>, second: Command, j: nat)
    requires first.ClaimJob? && Claims(db, first, j)
    requires second.ClaimJob? && Claims(Run(Apply(db, first).0, mid), second, j)
    ensures second.now >= first.now + first.ttl
  {
    LeaseRun(Apply(db, first).0, mid, j);
  }

  ghost predicate LeasesEndBy(db: Database, t: int) {
    forall i | 0 <= i < |db.outbox| && db.outbox[i].lease.Some? :: db.outbox[i].until <= t
  }

  lemma LeasesEndStep(db: Database, c: Command, t: int)
    requires LeasesEndBy(db, t) && (c.ClaimJob? ==> c.now + 5 <= t)
    ensures LeasesEndBy(Apply(db, c).0, t)
  {
  }

  lemma {:induction false} LeasesEndRun(db: Database, cs: seq<Command>, t: int)
    requires LeasesEndBy(db, t)
    requires forall c | c in cs && c.ClaimJob? :: c.now + 5 <= t
    ensures LeasesEndBy(Run(db, cs), t)
  {
    if cs != [] {
      LeasesEndRun(db, cs[..|cs| - 1], t);
      LeasesEndStep(Run(db, cs[..|cs| - 1]), cs[|cs| - 1], t);
    }
  }

  /** A claim made five or more after every earlier claim takes the lowest job
      that is not done, and finds none only when all are done. */
  lemma QuietClaimTakesLowest(cap: int, cs: seq<Command>, token: string, now: int, ttl: int)
    requires forall c | c in cs && c.ClaimJob? :: c.now + 5 <= now
    requires token != "" && 0 < ttl <= 5
    ensures var db := Run(Empty(cap), cs);
            var reply := Apply(db, ClaimJob(token, now, ttl)).1;
            && reply.Leased?
            && (reply.lease.None? <==> forall j: nat | 1 <= j <= |db.outbox| :: Done(db, j))
            && (reply.lease.Some? ==>
                  && 1 <= reply.lease.value.job <= |db.outbox| && !Done(db, reply.lease.value.job)
                  && forall j: nat | 1 <= j < reply.lease.value.job :: Done(db, j))
  {
    LeasesEndRun(Empty(cap), cs, now);
    var db := Run(Empty(cap), cs);
    forall j: nat | 1 <= j <= |db.outbox| ensures Claimable(db.outbox[j - 1], now) <==> !Done(db, j) {}
    var k := FirstClaimable(db.outbox, now, 0);
    forall j: nat | 1 <= j <= k ensures Done(db, j) {
      assert !Claimable(db.outbox[j - 1], now);
    }
    if k < |db.outbox| { assert !Done(db, k + 1); }
  }
}
