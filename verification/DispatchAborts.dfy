/** The writes of dispatch transactions, statement by statement: what a commit makes
    visible, and why an abort is as if the transaction had never been. */
module DispatchAborts {
  import opened DispatchModel
  import opened DispatchLocks

  // ------------------------------------------------------------- written, not yet visible

  datatype Write =
    | OfferWrite(offer: string, row: Offer)
    | TripWrite(order: string, state: string)
    | AssignmentWrite(added: Assignment)
    | OrderWrite(order: string, state: string)

  function Written(t: Tables, w: Write): Tables {
    match w
    case OfferWrite(o, row) => t.(offers := t.offers[o := row])
    case TripWrite(order, state) => t.(trips := t.trips[order := state])
    case AssignmentWrite(added) => t.(assignments := t.assignments + [added])
    case OrderWrite(order, state) => t.(orders := t.orders[order := state])
  }

  /** The tables with the writes applied in order: what their transaction sees. */
  function Private(t: Tables, ws: seq<Write>): Tables
    decreases |ws|
  {
    if ws == [] then t else Private(Written(t, ws[0]), ws[1..])
  }

  /** The rows a statement writes. */
  function WritesOf(m: Machine, e: Step): seq<Write>
    requires Enabled(m, e)
  {
    match e
    case WriteOffer(pid) => [OfferWrite(m.active[pid].offer, m.active[pid].row.(status := Accepted))]
    case WriteTrip(pid) =>
      if TripOpen(m.t, m.active[pid].order) then [TripWrite(m.active[pid].order, "assigned")] else []
    case WriteAssignment(pid) => [AssignmentWrite(Assignment(m.active[pid].offer, m.active[pid].order, false))]
    case WriteOrder(pid) => [OrderWrite(m.active[pid].order, "assigned")]
    case LockResolve(_, o, status, _) => [OfferWrite(o, m.t.offers[o].(status := status))]
    case _ => []
  }

  /** The machine with the uncommitted rows of every transaction. */
  datatype Working = Working(m: Machine, log: map<nat, seq<Write>>)

  function LogAt(w: Working, pid: nat): seq<Write> {
    if pid in w.log then w.log[pid] else []
  }

  /** A commit makes the rows visible, an abort forgets them. */
  function NextWorking(w: Working, e: Step): Working
    requires Enabled(w.m, e)
  {
    match e
    case Commit(pid) => Working(Ended(w.m, pid, Private(w.m.t, LogAt(w, pid))), w.log - {pid})
    case Quit(pid) => Working(Ended(w.m, pid, w.m.t), w.log - {pid})
    case Outside(_) => Working(Next(w.m, e), w.log)
    case _ => Working(Next(w.m, e), w.log[e.pid := LogAt(w, e.pid) + WritesOf(w.m, e)])
  }

  /** The rows a transaction has written at its stage. */
  function Rows(x: Txn): seq<Write> {
    match x
    case Accepting(o, order, stage, row, _, tripWrite) =>
      (if Rank(stage) >= 5 then [OfferWrite(o, row.(status := Accepted))] else [])
      + (if Rank(stage) >= 6 && tripWrite then [TripWrite(order, "assigned")] else [])
      + (if Rank(stage) >= 7 then [AssignmentWrite(Assignment(o, order, false))] else [])
      + (if Rank(stage) >= 8 then [OrderWrite(order, "assigned")] else [])
    case Resolving(o, row, status, _) => [OfferWrite(o, row.(status := status))]
  }

  predicate LogsOk(w: Working) {
    w.log.Keys == w.m.active.Keys && forall p | p in w.log :: w.log[p] == Rows(w.m.active[p])
  }

  lemma PrivateOne(t: Tables, w: Write)
    ensures Private(t, [w]) == Written(t, w)
  {
    assert [w][1..] == [];
  }

  lemma {:induction false} PrivateConcat(t: Tables, a: seq<Write>, b: seq<Write>)
    ensures Private(t, a + b) == Private(Private(t, a), b)
    decreases |a|
  {
    if a == [] {
      assert a + b == b;
    } else {
      assert (a + b)[0] == a[0] && (a + b)[1..] == a[1..] + b;
      PrivateConcat(Written(t, a[0]), a[1..], b);
    }
  }

  lemma AcceptedRows(t: Tables, x: Txn)
    requires x.Accepting? && x.stage == OrderWritten
    ensures Private(t, Rows(x)) == Published(t, x)
  {
    var offer, order := OfferWrite(x.offer, x.row.(status := Accepted)), OrderWrite(x.order, "assigned");
    var added, trip := AssignmentWrite(Assignment(x.offer, x.order, false)), TripWrite(x.order, "assigned");
    var t1 := Written(t, offer);
    var t2 := if x.tripWrite then Written(t1, trip) else t1;
    var t3 := Written(t2, added);
    PrivateOne(t3, order);
    PrivateOne(t2, added);
    PrivateOne(t, offer);
    PrivateOne(t1, trip);
    var trips := if x.tripWrite then [trip] else [];
    assert Rows(x) == [offer] + trips + [added] + [order];
    PrivateConcat(t, [offer] + trips + [added], [order]);
    PrivateConcat(t, [offer] + trips, [added]);
    PrivateConcat(t, [offer], trips);
    assert Private(t1, trips) == t2;
  }

  /** What a transaction commits is exactly the rows its statements wrote. */
  lemma CommittedRows(t: Tables, x: Txn)
    requires x.Accepting? ==> x.stage == OrderWritten
    ensures Private(t, Rows(x)) == Published(t, x)
  {
    if x.Accepting? {
      AcceptedRows(t, x);
    } else {
      PrivateOne(t, OfferWrite(x.offer, x.row.(status := x.status)));
    }
  }

  lemma QuietRows(m: Machine, e: Step)
    requires Enabled(m, e) && Advances(e)
    requires !e.WriteOffer? && !e.WriteTrip? && !e.WriteAssignment? && !e.WriteOrder?
    ensures Rows(Advanced(m, e)) == (if e.pid in m.active then Rows(m.active[e.pid]) else []) + WritesOf(m, e)
  {
  }

  lemma FirstRows(m: Machine, e: Step)
    requires Enabled(m, e) && (e.WriteOffer? || e.WriteTrip?)
    ensures Rows(Advanced(m, e)) == Rows(m.active[e.pid]) + WritesOf(m, e)
  {
  }

  lemma LastRows(m: Machine, e: Step)
    requires Enabled(m, e) && (e.WriteAssignment? || e.WriteOrder?)
    ensures Rows(Advanced(m, e)) == Rows(m.active[e.pid]) + WritesOf(m, e)
  {
  }

  lemma AdvanceRows(m: Machine, e: Step)
    requires Enabled(m, e) && Advances(e)
    ensures Rows(Advanced(m, e)) == (if e.pid in m.active then Rows(m.active[e.pid]) else []) + WritesOf(m, e)
  {
    if e.WriteOffer? || e.WriteTrip? {
      FirstRows(m, e);
    } else if e.WriteAssignment? || e.WriteOrder? {
      LastRows(m, e);
    } else {
      QuietRows(m, e);
    }
  }

  /** Statement by statement the working machine does what the machine does that makes all
      writes at once. */
  lemma WorkingStep(w: Working, e: Step)
    requires LogsOk(w) && Enabled(w.m, e)
    ensures NextWorking(w, e).m == Next(w.m, e) && LogsOk(NextWorking(w, e))
  {
    if Advances(e) {
      AdvanceFrame(w.m, e);
      AdvanceRows(w.m, e);
    } else if e.Commit? {
      CommittedRows(w.m.t, w.m.active[e.pid]);
    }
  }

  function Logged(es: seq<Step>): Working
    requires Legal(es)
    ensures Logged(es).m == After(es) && LogsOk(Logged(es))
    decreases |es|
  {
    if es == [] then Working(Initial(), map[])
    else
      var before := Logged(es[..|es| - 1]);
      WorkingStep(before, es[|es| - 1]);
      NextWorking(before, es[|es| - 1])
  }

  /** In every interleaving: the rows written so far are in the log of their transaction and
      in no table, and a commit adds exactly them. */
  lemma CommitPublishesLog(es: seq<Step>, pid: nat)
    requires Legal(es) && Enabled(After(es), Commit(pid))
    ensures pid in Logged(es).log
    ensures Next(After(es), Commit(pid)).t == Private(After(es).t, Logged(es).log[pid])
  {
    CommittedRows(After(es).t, After(es).active[pid]);
  }

  // ------------------------------------------------------------- aborted, as if never begun

  /** The machine as everyone else sees it. */
  function Hidden(m: Machine, pid: nat): Machine {
    Ended(m, pid, m.t)
  }

  predicate Mine(e: Step, pid: nat) {
    !e.Outside? && e.pid == pid
  }

  predicate Goes(m: Machine, es: seq<Step>)
    decreases |es|
  {
    es == [] || (Enabled(m, es[0]) && Goes(Next(m, es[0]), es[1..]))
  }

  function End(m: Machine, es: seq<Step>): Machine
    requires Goes(m, es)
    decreases |es|
  {
    if es == [] then m else End(Next(m, es[0]), es[1..])
  }

  function Without(es: seq<Step>, pid: nat): seq<Step> {
    if es == [] then [] else (if Mine(es[0], pid) then [] else [es[0]]) + Without(es[1..], pid)
  }

  /** No statement of the process ends its transaction. */
  predicate Unended(es: seq<Step>, pid: nat) {
    forall i | 0 <= i < |es| :: es[i] != Commit(pid) && es[i] != Quit(pid)
  }

  lemma UnlockedAdd(locks: map<string, nat>, k: string, q: nat, pid: nat)
    ensures q != pid ==> Unlocked(locks[k := q], pid) == Unlocked(locks, pid)[k := q]
    ensures q == pid && k !in locks ==> Unlocked(locks[k := q], pid) == Unlocked(locks, pid)
  {
  }

  lemma UnlockedTwice(locks: map<string, nat>, q: nat, pid: nat)
    ensures Unlocked(Unlocked(locks, q), pid) == Unlocked(Unlocked(locks, pid), q)
  {
  }

  /** Nobody else sees a statement of the process. */
  lemma OwnLockHidden(m: Machine, e: Step, pid: nat)
    requires Enabled(m, e) && Mine(e, pid) && (e.LockOrder? || e.LockOffer?)
    ensures Hidden(Next(m, e), pid) == Hidden(m, pid)
  {
    if e.LockOrder? {
      UnlockedAdd(m.orderLocks, m.active[pid].order, pid, pid);
    } else {
      UnlockedAdd(m.offerLocks, m.active[pid].offer, pid, pid);
    }
  }

  lemma OwnResolveHidden(m: Machine, e: Step, pid: nat)
    requires Enabled(m, e) && Mine(e, pid) && e.LockResolve?
    ensures Hidden(Next(m, e), pid) == Hidden(m, pid)
  {
    UnlockedAdd(m.offerLocks, e.offer, pid, pid);
  }

  lemma OwnTripHidden(m: Machine, e: Step, pid: nat)
    requires Enabled(m, e) && Mine(e, pid) && e.WriteTrip?
    ensures Hidden(Next(m, e), pid) == Hidden(m, pid)
  {
    UnlockedAdd(m.tripLocks, m.active[pid].order, pid, pid);
  }

  lemma OwnMoveHidden(m: Machine, pid: nat, x: Txn)
    ensures Hidden(Moved(m, pid, x), pid) == Hidden(m, pid)
  {
  }

  lemma OwnStepHidden(m: Machine, e: Step, pid: nat)
    requires Enabled(m, e) && Mine(e, pid) && Advances(e)
    ensures Hidden(Next(m, e), pid) == Hidden(m, pid)
  {
    if e.LockOrder? || e.LockOffer? {
      OwnLockHidden(m, e, pid);
    } else if e.LockResolve? {
      OwnResolveHidden(m, e, pid);
    } else if e.WriteTrip? {
      OwnTripHidden(m, e, pid);
    } else {
      OwnMoveHidden(m, pid, Advanced(m, e));
    }
  }

  lemma OthersEnabled(m: Machine, e: Step, pid: nat)
    requires Enabled(m, e) && !Mine(e, pid)
    ensures Enabled(Hidden(m, pid), e)
  {
  }

  lemma OthersLockOrder(m: Machine, e: Step, pid: nat)
    requires Enabled(m, e) && !Mine(e, pid) && Enabled(Hidden(m, pid), e) && e.LockOrder?
    ensures Next(Hidden(m, pid), e) == Hidden(Next(m, e), pid)
  {
    UnlockedAdd(m.orderLocks, m.active[e.pid].order, e.pid, pid);
  }

  lemma OthersLockOffer(m: Machine, e: Step, pid: nat)
    requires Enabled(m, e) && !Mine(e, pid) && Enabled(Hidden(m, pid), e) && e.LockOffer?
    ensures Next(Hidden(m, pid), e) == Hidden(Next(m, e), pid)
  {
    UnlockedAdd(m.offerLocks, m.active[e.pid].offer, e.pid, pid);
  }

  lemma OthersLockResolve(m: Machine, e: Step, pid: nat)
    requires Enabled(m, e) && !Mine(e, pid) && Enabled(Hidden(m, pid), e) && e.LockResolve?
    ensures Next(Hidden(m, pid), e) == Hidden(Next(m, e), pid)
  {
    UnlockedAdd(m.offerLocks, e.offer, e.pid, pid);
  }

  lemma OthersWriteTrip(m: Machine, e: Step, pid: nat)
    requires Enabled(m, e) && !Mine(e, pid) && Enabled(Hidden(m, pid), e) && e.WriteTrip?
    ensures Next(Hidden(m, pid), e) == Hidden(Next(m, e), pid)
  {
    var order := m.active[e.pid].order;
    UnlockedAdd(m.tripLocks, order, e.pid, pid);
    assert Advanced(Hidden(m, pid), e) == Advanced(m, e);
    assert Moved(Hidden(m, pid), e.pid, Advanced(m, e)) == Hidden(Moved(m, e.pid, Advanced(m, e)), pid);
  }

  lemma OthersMove(m: Machine, q: nat, x: Txn, pid: nat)
    requires q != pid
    ensures Moved(Hidden(m, pid), q, x) == Hidden(Moved(m, q, x), pid)
  {
  }

  lemma OthersPlain(m: Machine, e: Step, pid: nat)
    requires Enabled(m, e) && !Mine(e, pid) && Enabled(Hidden(m, pid), e) && Advances(e)
    requires !e.LockOrder? && !e.LockOffer? && !e.LockResolve? && !e.WriteTrip?
    ensures Next(Hidden(m, pid), e) == Hidden(Next(m, e), pid)
  {
    OthersMove(m, e.pid, Advanced(m, e), pid);
  }

  lemma OutsideStep(m: Machine, e: Step, pid: nat)
    requires Enabled(m, e) && e.Outside? && Enabled(Hidden(m, pid), e)
    ensures Next(Hidden(m, pid), e) == Hidden(Next(m, e), pid)
  {
  }

  lemma OthersEnd(m: Machine, e: Step, pid: nat)
    requires Enabled(m, e) && !Mine(e, pid) && Enabled(Hidden(m, pid), e) && (e.Commit? || e.Quit?)
    ensures Next(Hidden(m, pid), e) == Hidden(Next(m, e), pid)
  {
    UnlockedTwice(m.orderLocks, e.pid, pid);
    UnlockedTwice(m.offerLocks, e.pid, pid);
    UnlockedTwice(m.tripLocks, e.pid, pid);
    assert m.active - {e.pid} - {pid} == m.active - {pid} - {e.pid};
  }

  /** Everyone else's step is possible without the process and has the same effect. */
  lemma OthersStep(m: Machine, e: Step, pid: nat)
    requires Enabled(m, e) && !Mine(e, pid)
    ensures Enabled(Hidden(m, pid), e) && Next(Hidden(m, pid), e) == Hidden(Next(m, e), pid)
  {
    OthersEnabled(m, e, pid);
    if e.LockOrder? {
      OthersLockOrder(m, e, pid);
    } else if e.LockOffer? {
      OthersLockOffer(m, e, pid);
    } else if e.LockResolve? {
      OthersLockResolve(m, e, pid);
    } else if e.WriteTrip? {
      OthersWriteTrip(m, e, pid);
    } else if e.Commit? || e.Quit? {
      OthersEnd(m, e, pid);
    } else if e.Outside? {
      OutsideStep(m, e, pid);
    } else {
      OthersPlain(m, e, pid);
    }
  }

  lemma {:induction false} Erased(m: Machine, es: seq<Step>, pid: nat)
    requires Goes(m, es) && Unended(es, pid)
    ensures Goes(Hidden(m, pid), Without(es, pid))
    ensures End(Hidden(m, pid), Without(es, pid)) == Hidden(End(m, es), pid)
    decreases |es|
  {
    if es != [] {
      var e, rest := es[0], es[1..];
      assert forall i | 0 <= i < |rest| :: rest[i] == es[i + 1];
      Erased(Next(m, e), rest, pid);
      if Mine(e, pid) {
        OwnStepHidden(m, e, pid);
        assert Without(es, pid) == Without(rest, pid);
      } else {
        OthersStep(m, e, pid);
        assert Without(es, pid)[0] == e && Without(es, pid)[1..] == Without(rest, pid);
      }
    }
  }

  lemma NothingToHide(m: Machine, pid: nat)
    requires LocksOk(m) && pid !in m.active
    ensures Hidden(m, pid) == m
  {
    assert Unlocked(m.orderLocks, pid) == m.orderLocks;
    assert Unlocked(m.offerLocks, pid) == m.offerLocks;
    assert Unlocked(m.tripLocks, pid) == m.tripLocks;
  }

  lemma OneMore(before: seq<Step>, e: Step)
    requires Legal(before) && Enabled(After(before), e)
    ensures Legal(before + [e]) && After(before + [e]) == Next(After(before), e)
  {
    var next := before + [e];
    assert next[..|next| - 1] == before && next[|next| - 1] == e;
  }

  lemma {:induction false} Continues(before: seq<Step>, es: seq<Step>)
    requires Legal(before) && Goes(After(before), es)
    ensures Legal(before + es) && After(before + es) == End(After(before), es)
    decreases |es|
  {
    if es == [] {
      assert before + es == before;
    } else {
      OneMore(before, es[0]);
      Continues(before + [es[0]], es[1..]);
      assert before + [es[0]] + es[1..] == before + es;
    }
  }

  /** A transaction that aborts, whatever it wrote and locked in between, is as if it had
      never begun: everyone else can take the same steps without it, and the machine ends
      in the same state. */
  lemma AbortedAsIfNever(before: seq<Step>, es: seq<Step>, pid: nat)
    requires Legal(before) && pid !in After(before).active
    requires Goes(After(before), es) && Unended(es, pid) && Enabled(End(After(before), es), Quit(pid))
    ensures Legal(before + Without(es, pid)) && Legal(before + (es + [Quit(pid)]))
    ensures After(before + Without(es, pid)) == After(before + (es + [Quit(pid)]))
  {
    Reachable(before);
    NothingToHide(After(before), pid);
    Erased(After(before), es, pid);
    Continues(before, Without(es, pid));
    Continues(before, es);
    Continues(before + es, [Quit(pid)]);
    assert before + es + [Quit(pid)] == before + (es + [Quit(pid)]);
  }
}
