/** Dispatch transactions at the level of row locks: every statement of an acceptance is
    a step of its own, its writes stay invisible until it commits, and any interleaving
    of acceptances, resolutions and outside writers is allowed. */
module DispatchLocks {
  import opened Wrappers
  import opened DispatchModel

  /** How far an acceptance has come: the last statement that succeeded. */
  datatype Stage =
    | Located | OrderLocked | OfferLocked | Cleared | Unassigned
    | OfferWritten | TripWritten | AssignmentWritten | OrderWritten

  function Rank(s: Stage): nat {
    match s
    case Located => 0
    case OrderLocked => 1
    case OfferLocked => 2
    case Cleared => 3
    case Unassigned => 4
    case OfferWritten => 5
    case TripWritten => 6
    case AssignmentWritten => 7
    case OrderWritten => 8
  }

  /** A transaction in flight: row is the offer as read under its lock, now the clock it
      was cleared at, tripWrite whether it inserted or updated the trip. */
  datatype Txn =
    | Accepting(offer: string, order: string, stage: Stage, row: Offer, now: int, tripWrite: bool)
    | Resolving(offer: string, row: Offer, status: OfferStatus, now: int)

  datatype Machine = Machine(
    t: Tables, orderLocks: map<string, nat>, offerLocks: map<string, nat>, tripLocks: map<string, nat>,
    active: map<nat, Txn>)

  datatype Step =
    | Locate(pid: nat, offer: string)
    | LockOrder(pid: nat)
    | LockOffer(pid: nat)
    | Clear(pid: nat, now: int)
    | CheckAssignment(pid: nat)
    | WriteOffer(pid: nat)
    | WriteTrip(pid: nat)
    | WriteAssignment(pid: nat)
    | WriteOrder(pid: nat)
    | LockResolve(pid: nat, offer: string, status: OfferStatus, now: int)
    | Commit(pid: nat)
    | Quit(pid: nat)
    | Outside(c: Command)

  predicate At(m: Machine, pid: nat, stage: Stage) {
    pid in m.active && m.active[pid].Accepting? && m.active[pid].stage == stage
  }

  predicate TripOpen(t: Tables, order: string) {
    order !in t.trips || t.trips[order] == "planned"
  }

  predicate MayResolve(row: Offer, status: OfferStatus, now: int) {
    row.status == Pending
    && (status == Declined || status == Cancelled || (status == Expired && row.expires <= now))
  }

  predicate Enabled(m: Machine, e: Step) {
    match e
    case Locate(pid, o) => pid !in m.active && o in m.t.offers
    case LockOrder(pid) => At(m, pid, Located) && m.active[pid].order !in m.orderLocks
    case LockOffer(pid) =>
      At(m, pid, OrderLocked) && m.active[pid].offer !in m.offerLocks && m.active[pid].offer in m.t.offers
    case Clear(pid, now) =>
      At(m, pid, OfferLocked) && m.active[pid].row.status == Pending && now < m.active[pid].row.expires
    case CheckAssignment(pid) => At(m, pid, Cleared) && !HasActive(m.t, m.active[pid].order)
    case WriteOffer(pid) => At(m, pid, Unassigned) && !HasAccepted(m.t, m.active[pid].order)
    case WriteTrip(pid) =>
      At(m, pid, OfferWritten) && (TripOpen(m.t, m.active[pid].order) ==> m.active[pid].order !in m.tripLocks)
    case WriteAssignment(pid) => At(m, pid, TripWritten)
    case WriteOrder(pid) =>
      && At(m, pid, AssignmentWritten)
      && m.active[pid].order in m.t.orders && m.t.orders[m.active[pid].order] == "confirmed"
    case LockResolve(pid, o, status, now) =>
      pid !in m.active && o in m.t.offers && o !in m.offerLocks && MayResolve(m.t.offers[o], status, now)
    case Commit(pid) => pid in m.active && (m.active[pid].Resolving? || m.active[pid].stage == OrderWritten)
    case Quit(pid) => pid in m.active
    case Outside(c) =>
      match c
      case NewOrder(_, _) => true
      case NewOffer(_, _, _) => true
      case Release(_) => true
      case NewTrip(order) => order !in m.tripLocks
      case MoveTrip(order, _) => order !in m.tripLocks
      case MoveOrder(order, _) => order !in m.orderLocks
      case _ => false
  }

  function Unlocked(locks: map<string, nat>, pid: nat): map<string, nat> {
    map k | k in locks && locks[k] != pid :: locks[k]
  }

  function Ended(m: Machine, pid: nat, t: Tables): Machine {
    Machine(t, Unlocked(m.orderLocks, pid), Unlocked(m.offerLocks, pid), Unlocked(m.tripLocks, pid), m.active - {pid})
  }

  /** The buffered writes of a transaction, made visible. */
  function Published(t: Tables, x: Txn): Tables {
    match x
    case Accepting(o, order, _, row, _, tripWrite) =>
      Tables(t.offers[o := row.(status := Accepted)], t.orders[order := "assigned"],
             if tripWrite then t.trips[order := "assigned"] else t.trips,
             t.assignments + [Assignment(o, order, false)])
    case Resolving(o, row, status, _) => t.(offers := t.offers[o := row.(status := status)])
  }

  function Moved(m: Machine, pid: nat, x: Txn): Machine {
    m.(active := m.active[pid := x])
  }

  predicate Advances(e: Step) {
    !e.Commit? && !e.Quit? && !e.Outside?
  }

  /** The transaction of the step's process once its statement has succeeded. */
  function Advanced(m: Machine, e: Step): Txn
    requires Enabled(m, e) && Advances(e)
  {
    match e
    case Locate(pid, o) => Accepting(o, m.t.offers[o].order, Located, m.t.offers[o], 0, false)
    case LockOrder(pid) => m.active[pid].(stage := OrderLocked)
    case LockOffer(pid) => m.active[pid].(stage := OfferLocked, row := m.t.offers[m.active[pid].offer])
    case Clear(pid, now) => m.active[pid].(stage := Cleared, now := now)
    case CheckAssignment(pid) => m.active[pid].(stage := Unassigned)
    case WriteOffer(pid) => m.active[pid].(stage := OfferWritten)
    case WriteTrip(pid) => m.active[pid].(stage := TripWritten, tripWrite := TripOpen(m.t, m.active[pid].order))
    case WriteAssignment(pid) => m.active[pid].(stage := AssignmentWritten)
    case WriteOrder(pid) => m.active[pid].(stage := OrderWritten)
    case LockResolve(pid, o, status, now) => Resolving(o, m.t.offers[o], status, now)
  }

  function Next(m: Machine, e: Step): Machine
    requires Enabled(m, e)
  {
    match e
    case Commit(pid) => Ended(m, pid, Published(m.t, m.active[pid]))
    case Quit(pid) => Ended(m, pid, m.t)
    case Outside(c) => m.(t := Apply(m.t, c).0)
    case LockOrder(pid) =>
      Moved(m, pid, Advanced(m, e)).(orderLocks := m.orderLocks[m.active[pid].order := pid])
    case LockOffer(pid) =>
      Moved(m, pid, Advanced(m, e)).(offerLocks := m.offerLocks[m.active[pid].offer := pid])
    case LockResolve(pid, o, _, _) =>
      Moved(m, pid, Advanced(m, e)).(offerLocks := m.offerLocks[o := pid])
    case WriteTrip(pid) =>
      if TripOpen(m.t, m.active[pid].order) then
        Moved(m, pid, Advanced(m, e)).(tripLocks := m.tripLocks[m.active[pid].order := pid])
      else Moved(m, pid, Advanced(m, e))
    case _ => Moved(m, e.pid, Advanced(m, e))
  }

  predicate HoldsOrder(x: Txn, order: string) {
    x.Accepting? && x.order == order && Rank(x.stage) >= 1
  }

  predicate HoldsOffer(x: Txn, o: string) {
    x.offer == o && (x.Resolving? || Rank(x.stage) >= 2)
  }

  predicate HoldsTrip(x: Txn, order: string) {
    x.Accepting? && x.order == order && Rank(x.stage) >= 6 && x.tripWrite
  }

  /** Every lock has its holder and every holder its lock, table by table. */
  predicate OrderLocksOk(m: Machine) {
    && (forall k | k in m.orderLocks :: m.orderLocks[k] in m.active && HoldsOrder(m.active[m.orderLocks[k]], k))
    && (forall p | p in m.active && m.active[p].Accepting? && HoldsOrder(m.active[p], m.active[p].order) ::
          m.active[p].order in m.orderLocks && m.orderLocks[m.active[p].order] == p)
  }

  predicate OfferLocksOk(m: Machine) {
    && (forall k | k in m.offerLocks :: m.offerLocks[k] in m.active && HoldsOffer(m.active[m.offerLocks[k]], k))
    && (forall p | p in m.active && HoldsOffer(m.active[p], m.active[p].offer) ::
          m.active[p].offer in m.offerLocks && m.offerLocks[m.active[p].offer] == p)
  }

  predicate TripLocksOk(m: Machine) {
    && (forall k | k in m.tripLocks :: m.tripLocks[k] in m.active && HoldsTrip(m.active[m.tripLocks[k]], k))
    && (forall p | p in m.active && m.active[p].Accepting? && HoldsTrip(m.active[p], m.active[p].order) ::
          m.active[p].order in m.tripLocks && m.tripLocks[m.active[p].order] == p)
  }

  predicate LocksOk(m: Machine) {
    OrderLocksOk(m) && OfferLocksOk(m) && TripLocksOk(m)
  }

  /** Everything a transaction has checked so far is still true of the tables. */
  predicate ChecksHold(t: Tables, x: Txn) {
    && x.offer in t.offers
    && match x
       case Accepting(o, order, stage, row, now, tripWrite) =>
         && order == t.offers[o].order
         && (Rank(stage) >= 2 ==> row == t.offers[o])
         && (Rank(stage) >= 3 ==> row.status == Pending && now < row.expires)
         && (Rank(stage) >= 4 ==> !HasActive(t, order))
         && (Rank(stage) >= 5 ==> !HasAccepted(t, order))
         && (Rank(stage) >= 6 ==> tripWrite == TripOpen(t, order))
         && (Rank(stage) >= 8 ==> order in t.orders && t.orders[order] == "confirmed")
       case Resolving(o, row, status, now) => row == t.offers[o] && MayResolve(row, status, now)
  }

  predicate Inv(m: Machine) {
    && Wf(m.t) && LocksOk(m)
    && forall p | p in m.active :: ChecksHold(m.t, m.active[p])
  }

  /** A commit does exactly what the serial transaction does on the present tables. */
  lemma CommitIsSerial(t: Tables, x: Txn)
    requires ChecksHold(t, x)
    requires x.Accepting? ==> x.stage == OrderWritten
    ensures x.Accepting? ==> Apply(t, Accept(x.offer, true, x.now, true)) == (Published(t, x), Assigned(|t.assignments|, false))
    ensures x.Resolving? && x.status != Expired ==> Apply(t, Resolve(x.offer, x.status == Cancelled, true)) == (Published(t, x), Resolved)
    ensures x.Resolving? && x.status == Expired ==> Apply(t, ExpireIfDue(x.offer, x.now)) == (Published(t, x), Resolved)
  {
    if x.Accepting? { assert AcceptRefusal(t, x.offer, true, x.now, true).None?; }
  }

  lemma AssignKeepsActive(t: Tables, o: string, order: string)
    requires o in t.offers && t.offers[o].order != order && !HasActive(t, order)
    ensures !HasActive(Assign(t, o), order)
  {
    var after := Assign(t, o);
    forall i | 0 <= i < |after.assignments| ensures !ActiveAt(after, order, i) {
      assert i < |t.assignments| ==> !ActiveAt(t, order, i);
    }
  }

  lemma AssignKeepsAccepted(t: Tables, o: string, order: string)
    requires o in t.offers && t.offers[o].order != order && !HasAccepted(t, order)
    ensures !HasAccepted(Assign(t, o), order)
  {
    var after := Assign(t, o);
    forall q | q in after.offers ensures !AcceptedFor(after, order, q) {
      assert !AcceptedFor(t, order, q);
    }
  }

  lemma AcceptKeepsChecks(t: Tables, x: Txn, y: Txn)
    requires ChecksHold(t, x) && ChecksHold(t, y) && x.Accepting? && x.stage == OrderWritten
    requires !HoldsOffer(y, x.offer) && !HoldsOrder(y, x.order)
    ensures ChecksHold(Published(t, x), y)
  {
    assert Published(t, x) == Assign(t, x.offer);
    if y.Accepting? && Rank(y.stage) >= 4 { AssignKeepsActive(t, x.offer, y.order); }
    if y.Accepting? && Rank(y.stage) >= 5 { AssignKeepsAccepted(t, x.offer, y.order); }
  }

  lemma SettleKeepsAccepted(t: Tables, o: string, status: OfferStatus, order: string)
    requires o in t.offers && status != Accepted && !HasAccepted(t, order)
    ensures !HasAccepted(Settle(t, o, status), order)
  {
    var after := Settle(t, o, status);
    forall q | q in after.offers ensures !AcceptedFor(after, order, q) {
      assert !AcceptedFor(t, order, q);
    }
  }

  lemma ResolveKeepsChecks(t: Tables, x: Txn, y: Txn)
    requires ChecksHold(t, x) && ChecksHold(t, y) && x.Resolving?
    requires !HoldsOffer(y, x.offer)
    ensures ChecksHold(Published(t, x), y)
  {
    assert Published(t, x) == Settle(t, x.offer, x.status);
    if y.Accepting? {
      assert HasActive(Published(t, x), y.order) ==> HasActive(t, y.order) by {
        if HasActive(Published(t, x), y.order) {
          var i :| 0 <= i < |t.assignments| && ActiveAt(Published(t, x), y.order, i);
          assert ActiveAt(t, y.order, i);
        }
      }
      if Rank(y.stage) >= 5 { SettleKeepsAccepted(t, x.offer, x.status, y.order); }
    }
  }

  lemma OutsideKeepsFlags(t: Tables, c: Command, order: string)
    requires c.NewOrder? || c.NewOffer? || c.Release? || c.NewTrip? || c.MoveTrip? || c.MoveOrder?
    ensures !HasActive(t, order) ==> !HasActive(Apply(t, c).0, order)
    ensures !HasAccepted(t, order) ==> !HasAccepted(Apply(t, c).0, order)
  {
    var after := Apply(t, c).0;
    forall i | 0 <= i < |after.assignments| ensures ActiveAt(after, order, i) ==> ActiveAt(t, order, i) {}
    forall q | q in after.offers ensures AcceptedFor(after, order, q) ==> AcceptedFor(t, order, q) {}
  }

  lemma OutsideKeepsChecks(m: Machine, c: Command, y: Txn)
    requires Enabled(m, Outside(c)) && ChecksHold(m.t, y)
    requires y.Accepting? && HoldsOrder(y, y.order) ==> y.order in m.orderLocks
    requires y.Accepting? && HoldsTrip(y, y.order) ==> y.order in m.tripLocks
    ensures ChecksHold(Apply(m.t, c).0, y)
  {
    if y.Accepting? { OutsideKeepsFlags(m.t, c, y.order); }
  }

  lemma OrdersFrame(m: Machine, n: Machine, pid: nat, x: Txn)
    requires OrderLocksOk(m) && n.orderLocks == m.orderLocks && n.active == m.active[pid := x]
    requires pid in m.active ==> forall k: string :: HoldsOrder(x, k) <==> HoldsOrder(m.active[pid], k)
    requires pid !in m.active ==> forall k: string :: !HoldsOrder(x, k)
    ensures OrderLocksOk(n)
  {
  }

  lemma OffersFrame(m: Machine, n: Machine, pid: nat, x: Txn)
    requires OfferLocksOk(m) && n.offerLocks == m.offerLocks && n.active == m.active[pid := x]
    requires pid in m.active ==> forall k: string :: HoldsOffer(x, k) <==> HoldsOffer(m.active[pid], k)
    requires pid !in m.active ==> forall k: string :: !HoldsOffer(x, k)
    ensures OfferLocksOk(n)
  {
  }

  lemma TripsFrame(m: Machine, n: Machine, pid: nat, x: Txn)
    requires TripLocksOk(m) && n.tripLocks == m.tripLocks && n.active == m.active[pid := x]
    requires pid in m.active ==> forall k: string :: HoldsTrip(x, k) <==> HoldsTrip(m.active[pid], k)
    requires pid !in m.active ==> forall k: string :: !HoldsTrip(x, k)
    ensures TripLocksOk(n)
  {
  }

  lemma AdvanceLocks(m: Machine, pid: nat, x: Txn)
    requires LocksOk(m)
    requires pid in m.active ==>
      && x.Accepting? && m.active[pid].Accepting? && x.order == m.active[pid].order && x.offer == m.active[pid].offer
      && Rank(m.active[pid].stage) >= 2 && Rank(x.stage) >= 2
      && (HoldsTrip(x, x.order) <==> HoldsTrip(m.active[pid], x.order))
    requires pid !in m.active ==> x.Accepting? && x.stage == Located
    ensures LocksOk(Moved(m, pid, x))
  {
    var n := Moved(m, pid, x);
    OrdersFrame(m, n, pid, x);
    OffersFrame(m, n, pid, x);
    TripsFrame(m, n, pid, x);
  }

  lemma OrderLockLocks(m: Machine, pid: nat)
    requires LocksOk(m) && Enabled(m, LockOrder(pid))
    ensures LocksOk(Next(m, LockOrder(pid)))
  {
    var n, x := Next(m, LockOrder(pid)), Advanced(m, LockOrder(pid));
    assert OrderLocksOk(n);
    OffersFrame(m, n, pid, x);
    TripsFrame(m, n, pid, x);
  }

  lemma OfferLockLocks(m: Machine, pid: nat)
    requires LocksOk(m) && Enabled(m, LockOffer(pid))
    ensures LocksOk(Next(m, LockOffer(pid)))
  {
    var n, x := Next(m, LockOffer(pid)), Advanced(m, LockOffer(pid));
    OrdersFrame(m, n, pid, x);
    assert OfferLocksOk(n);
    TripsFrame(m, n, pid, x);
  }

  lemma ResolveLocks(m: Machine, pid: nat, o: string, status: OfferStatus, now: int)
    requires LocksOk(m) && Enabled(m, LockResolve(pid, o, status, now))
    ensures LocksOk(Next(m, LockResolve(pid, o, status, now)))
  {
    var e := LockResolve(pid, o, status, now);
    var n, x := Next(m, e), Advanced(m, e);
    OrdersFrame(m, n, pid, x);
    assert OfferLocksOk(n);
    TripsFrame(m, n, pid, x);
  }

  lemma TripLocks(m: Machine, pid: nat)
    requires LocksOk(m) && Enabled(m, WriteTrip(pid))
    ensures LocksOk(Next(m, WriteTrip(pid)))
  {
    var n, x := Next(m, WriteTrip(pid)), Advanced(m, WriteTrip(pid));
    if TripOpen(m.t, m.active[pid].order) {
      OrdersFrame(m, n, pid, x);
      OffersFrame(m, n, pid, x);
      assert TripLocksOk(n);
    } else {
      AdvanceLocks(m, pid, x);
    }
  }

  lemma EndLocks(m: Machine, pid: nat, t: Tables)
    requires LocksOk(m) && pid in m.active
    ensures LocksOk(Ended(m, pid, t))
  {
    var n := Ended(m, pid, t);
    assert OrderLocksOk(n);
    assert OfferLocksOk(n);
    assert TripLocksOk(n);
  }

  lemma PlainLocks(m: Machine, e: Step)
    requires LocksOk(m) && Enabled(m, e) && Advances(e)
    requires !e.LockOrder? && !e.LockOffer? && !e.LockResolve? && !e.WriteTrip?
    ensures LocksOk(Next(m, e))
  {
    AdvanceLocks(m, e.pid, Advanced(m, e));
  }

  lemma StepLocks(m: Machine, e: Step)
    requires LocksOk(m) && Enabled(m, e)
    ensures LocksOk(Next(m, e))
  {
    match e {
      case LockOrder(pid) => OrderLockLocks(m, pid);
      case LockOffer(pid) => OfferLockLocks(m, pid);
      case LockResolve(pid, o, status, now) => ResolveLocks(m, pid, o, status, now);
      case WriteTrip(pid) => TripLocks(m, pid);
      case Commit(pid) => EndLocks(m, pid, Published(m.t, m.active[pid]));
      case Quit(pid) => EndLocks(m, pid, m.t);
      case Outside(_) => SameLocks(m, Next(m, e));
      case _ => PlainLocks(m, e);
    }
  }

  lemma SameLocks(m: Machine, n: Machine)
    requires LocksOk(m) && n == m.(t := n.t)
    ensures LocksOk(n)
  {
  }

  /** The serial command a step amounts to, if it shows in the tables at all. */
  function Effect(m: Machine, e: Step): Option<Command>
    requires Enabled(m, e)
  {
    match e
    case Commit(pid) =>
      (match m.active[pid]
       case Accepting(o, _, _, _, now, _) => Some(Accept(o, true, now, true))
       case Resolving(o, _, status, now) =>
         Some(if status == Expired then ExpireIfDue(o, now) else Resolve(o, status == Cancelled, true)))
    case Outside(c) => Some(c)
    case _ => None
  }

  /** Every step either leaves the tables alone or acts as one serial transaction. */
  lemma StepRefines(m: Machine, e: Step)
    requires Inv(m) && Enabled(m, e)
    ensures Next(m, e).t == match Effect(m, e) case None => m.t case Some(c) => Apply(m.t, c).0
  {
    if e.Commit? { CommitIsSerial(m.t, m.active[e.pid]); }
  }

  lemma CommitKeepsChecks(m: Machine, pid: nat, p: nat)
    requires Inv(m) && Enabled(m, Commit(pid)) && p in m.active && p != pid
    ensures ChecksHold(Next(m, Commit(pid)).t, m.active[p])
  {
    var x, y := m.active[pid], m.active[p];
    assert HoldsOffer(x, x.offer);
    assert !HoldsOffer(y, x.offer);
    if x.Accepting? {
      assert HoldsOrder(x, x.order);
      assert !HoldsOrder(y, x.order);
      AcceptKeepsChecks(m.t, x, y);
    } else {
      ResolveKeepsChecks(m.t, x, y);
    }
  }

  lemma AdvanceFrame(m: Machine, e: Step)
    requires Enabled(m, e) && Advances(e)
    ensures Next(m, e).t == m.t && Next(m, e).active == m.active[e.pid := Advanced(m, e)]
  {
  }

  lemma FirstChecks(m: Machine, e: Step)
    requires Inv(m) && Enabled(m, e)
    requires e.Locate? || e.LockResolve? || e.LockOrder? || e.LockOffer? || e.Clear?
    ensures ChecksHold(m.t, Advanced(m, e))
  {
    if e.pid in m.active { assert ChecksHold(m.t, m.active[e.pid]); }
  }

  lemma AssignmentChecks(m: Machine, e: Step)
    requires Inv(m) && Enabled(m, e) && e.CheckAssignment?
    ensures ChecksHold(m.t, Advanced(m, e))
  {
    assert ChecksHold(m.t, m.active[e.pid]);
  }

  lemma OfferChecks(m: Machine, e: Step)
    requires Inv(m) && Enabled(m, e) && e.WriteOffer?
    ensures ChecksHold(m.t, Advanced(m, e))
  {
    assert ChecksHold(m.t, m.active[e.pid]);
  }

  lemma TripChecks(m: Machine, e: Step)
    requires Inv(m) && Enabled(m, e) && e.WriteTrip?
    ensures ChecksHold(m.t, Advanced(m, e))
  {
    assert ChecksHold(m.t, m.active[e.pid]);
  }

  lemma LateChecks(m: Machine, e: Step)
    requires Inv(m) && Enabled(m, e) && (e.WriteAssignment? || e.WriteOrder?)
    ensures ChecksHold(m.t, Advanced(m, e))
  {
    assert ChecksHold(m.t, m.active[e.pid]);
  }

  /** The statement just executed established what it claims to have checked. */
  lemma AdvanceChecks(m: Machine, e: Step)
    requires Inv(m) && Enabled(m, e) && Advances(e)
    ensures ChecksHold(m.t, Advanced(m, e))
  {
    if e.Locate? || e.LockResolve? || e.LockOrder? || e.LockOffer? || e.Clear? {
      FirstChecks(m, e);
    } else if e.CheckAssignment? {
      AssignmentChecks(m, e);
    } else if e.WriteOffer? {
      OfferChecks(m, e);
    } else if e.WriteTrip? {
      TripChecks(m, e);
    } else {
      LateChecks(m, e);
    }
  }

  lemma AdvanceKeepsChecks(m: Machine, e: Step, p: nat)
    requires Inv(m) && Enabled(m, e) && Advances(e) && p in Next(m, e).active
    ensures ChecksHold(Next(m, e).t, Next(m, e).active[p])
  {
    AdvanceFrame(m, e);
    AdvanceChecks(m, e);
    if p != e.pid { assert p in m.active; }
  }

  lemma OutsideStepChecks(m: Machine, e: Step, p: nat)
    requires Inv(m) && Enabled(m, e) && e.Outside? && p in Next(m, e).active
    ensures ChecksHold(Next(m, e).t, Next(m, e).active[p])
  {
    OutsideKeepsChecks(m, e.c, m.active[p]);
  }

  lemma StepChecks(m: Machine, e: Step, p: nat)
    requires Inv(m) && Enabled(m, e) && p in Next(m, e).active
    ensures ChecksHold(Next(m, e).t, Next(m, e).active[p])
  {
    if Advances(e) {
      AdvanceKeepsChecks(m, e, p);
    } else if e.Commit? {
      CommitKeepsChecks(m, e.pid, p);
    } else if e.Outside? {
      OutsideStepChecks(m, e, p);
    }
  }

  lemma StepInv(m: Machine, e: Step)
    requires Inv(m) && Enabled(m, e)
    ensures Inv(Next(m, e))
  {
    StepLocks(m, e);
    StepRefines(m, e);
    match Effect(m, e) {
      case Some(c) => StepWf(m.t, c);
      case None =>
    }
    forall p | p in Next(m, e).active ensures ChecksHold(Next(m, e).t, Next(m, e).active[p]) { StepChecks(m, e, p); }
  }

  function Initial(): Machine {
    Machine(DispatchModel.Empty(), map[], map[], map[], map[])
  }

  predicate Legal(es: seq<Step>)
    decreases |es|, 0
  {
    es == [] || (Legal(es[..|es| - 1]) && Enabled(After(es[..|es| - 1]), es[|es| - 1]))
  }

  function After(es: seq<Step>): Machine
    requires Legal(es)
    decreases |es|, 1
  {
    if es == [] then Initial() else Next(After(es[..|es| - 1]), es[|es| - 1])
  }

  /** The serial history of an interleaving: its commits and outside writes, in order. */
  function History(es: seq<Step>): seq<Command>
    requires Legal(es)
    decreases |es|
  {
    if es == [] then []
    else
      var before := es[..|es| - 1];
      match Effect(After(before), es[|es| - 1])
      case Some(c) => History(before) + [c]
      case None => History(before)
  }

  lemma {:induction false} Reachable(es: seq<Step>)
    requires Legal(es)
    ensures Inv(After(es))
    decreases |es|
  {
    if es != [] {
      Reachable(es[..|es| - 1]);
      StepInv(After(es[..|es| - 1]), es[|es| - 1]);
    }
  }

  /** Serializability: every interleaving of lock-level steps leaves the tables of the
      serial run of its commits. */
  lemma {:induction false} Serializable(es: seq<Step>)
    requires Legal(es)
    ensures After(es).t == Run(DispatchModel.Empty(), History(es))
    decreases |es|
  {
    if es != [] {
      var before := es[..|es| - 1];
      Serializable(before);
      Reachable(before);
      StepRefines(After(before), es[|es| - 1]);
      match Effect(After(before), es[|es| - 1]) {
        case Some(c) =>
          assert History(es)[..|History(es)| - 1] == History(before);
        case None =>
      }
    }
  }

  /** In every interleaving an order has at most one accepted offer and one unreleased
      assignment, and accepted offers and assignments correspond one to one. */
  lemma DispatchSafety(es: seq<Step>)
    requires Legal(es)
    ensures Wf(After(es).t)
    ensures forall order, i, j | ActiveAt(After(es).t, order, i) && ActiveAt(After(es).t, order, j) :: i == j
  {
    Reachable(es);
    var t := After(es).t;
    forall order, i, j | ActiveAt(t, order, i) && ActiveAt(t, order, j) ensures i == j {
      OneActive(t, order, i, j);
    }
  }

  predicate Waiting(m: Machine, pid: nat) {
    && pid in m.active && m.active[pid].Accepting?
    && ((m.active[pid].stage == Located && m.active[pid].order in m.orderLocks)
        || (m.active[pid].stage == OrderLocked && m.active[pid].offer in m.offerLocks)
        || (m.active[pid].stage == OfferWritten && m.active[pid].order in m.tripLocks))
  }

  /** Nobody waits for a trip: whoever could hold it holds the lock of its order too. */
  lemma TripsAreFree(m: Machine)
    requires LocksOk(m)
    ensures forall p | p in m.active && m.active[p].Accepting? && m.active[p].stage == OfferWritten ::
              m.active[p].order !in m.tripLocks
  {
    forall p | p in m.active && m.active[p].Accepting? && m.active[p].stage == OfferWritten
      ensures m.active[p].order !in m.tripLocks
    {
      var order := m.active[p].order;
      assert HoldsOrder(m.active[p], order) && !HoldsTrip(m.active[p], order);
    }
  }

  /** No deadlock: while transactions are in flight, one of them is not waiting for a row. */
  lemma SomeoneRuns(m: Machine, pid: nat)
    requires LocksOk(m) && pid in m.active
    ensures exists p :: p in m.active && !Waiting(m, p)
  {
    TripsAreFree(m);
    if Waiting(m, pid) {
      var x := m.active[pid];
      var p := if x.stage == Located then m.orderLocks[x.order] else m.offerLocks[x.offer];
      if Waiting(m, p) {
        assert m.active[p].stage == OrderLocked;
        assert !Waiting(m, m.offerLocks[m.active[p].offer]);
      }
    }
  }

  /** A decided offer never changes, in any interleaving. */
  lemma DecidedInAnyStep(m: Machine, e: Step, o: string)
    requires Inv(m) && Enabled(m, e) && o in m.t.offers && m.t.offers[o].status != Pending
    ensures o in Next(m, e).t.offers && Next(m, e).t.offers[o] == m.t.offers[o]
  {
    StepRefines(m, e);
    match Effect(m, e) {
      case Some(c) => DecidedOffersStay(m.t, c, o);
      case None =>
    }
  }
}
