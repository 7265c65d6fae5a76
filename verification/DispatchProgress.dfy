/** An acceptance that finds its locks free and its order free goes through, statement by
    statement, in whatever history it begins. */
module DispatchProgress {
  import opened DispatchModel
  import opened DispatchLocks
  import opened DispatchAnswers

  lemma Goes(es: seq<Step>, e: Step)
    requires Legal(es) && Enabled(After(es), e)
    ensures Legal(es + [e]) && After(es + [e]) == Next(After(es), e)
  {
    assert (es + [e])[..|es|] == es;
  }

  /** The rows of the offer and of its order are located and locked. */
  lemma Locks(es: seq<Step>, pid: nat, o: string) returns (fs: seq<Step>)
    requires Legal(es)
    requires var m := After(es);
             pid !in m.active && o in m.t.offers && m.t.offers[o].order !in m.orderLocks && o !in m.offerLocks
    ensures Legal(fs) && es <= fs
    ensures var m, m' := After(es), After(fs);
            && m'.t == m.t && m'.tripLocks == m.tripLocks
            && pid in m'.active && m'.active[pid].Accepting? && m'.active[pid].stage == OfferLocked
            && m'.active[pid].offer == o && m'.active[pid].row == m.t.offers[o]
            && m'.active[pid].order == m.t.offers[o].order
  {
    Goes(es, Locate(pid, o));
    fs := es + [Locate(pid, o)];
    Goes(fs, LockOrder(pid));
    fs := fs + [LockOrder(pid)];
    Goes(fs, LockOffer(pid));
    fs := fs + [LockOffer(pid)];
  }

  /** The checks pass and the offer is written. */
  lemma Checks(es: seq<Step>, pid: nat, now: int) returns (fs: seq<Step>)
    requires Legal(es) && At(After(es), pid, OfferLocked)
    requires var m := After(es);
             var x := m.active[pid];
             x.row.status == Pending && now < x.row.expires && OrderFree(m.t, x.order)
    ensures Legal(fs) && es <= fs
    ensures var m, m' := After(es), After(fs);
            m'.t == m.t && m'.tripLocks == m.tripLocks && pid in m'.active
            && m'.active[pid] == m.active[pid].(stage := OfferWritten, now := now)
  {
    FreeExactly(After(es).t, After(es).active[pid].order);
    Goes(es, Clear(pid, now));
    fs := es + [Clear(pid, now)];
    Goes(fs, CheckAssignment(pid));
    fs := fs + [CheckAssignment(pid)];
    Goes(fs, WriteOffer(pid));
    fs := fs + [WriteOffer(pid)];
  }

  /** The remaining rows are written. */
  lemma Writes(es: seq<Step>, pid: nat) returns (fs: seq<Step>)
    requires Legal(es) && At(After(es), pid, OfferWritten)
    requires var m := After(es);
             var order := m.active[pid].order;
             order !in m.tripLocks && order in m.t.orders && m.t.orders[order] == "confirmed"
    ensures Legal(fs) && es <= fs && At(After(fs), pid, OrderWritten)
    ensures After(fs).t == After(es).t && After(fs).active[pid].offer == After(es).active[pid].offer
    ensures After(fs).active[pid].now == After(es).active[pid].now
  {
    Goes(es, WriteTrip(pid));
    fs := es + [WriteTrip(pid)];
    Goes(fs, WriteAssignment(pid));
    fs := fs + [WriteAssignment(pid)];
    Goes(fs, WriteOrder(pid));
    fs := fs + [WriteOrder(pid)];
  }

  /** After any interleaving: a process that finds the order, the offer and the trip
      unlocked, the offer pending and not due, and the confirmed order free commits by its
      own statements alone, and the tables are those of the accepted serial command. */
  lemma AcceptanceCommits(es: seq<Step>, pid: nat, o: string, now: int) returns (fs: seq<Step>)
    requires Legal(es)
    requires var m := After(es);
             && pid !in m.active && o in m.t.offers && o !in m.offerLocks
             && var row := m.t.offers[o];
                && row.order !in m.orderLocks && row.order !in m.tripLocks
                && row.status == Pending && now < row.expires && OrderFree(m.t, row.order)
                && row.order in m.t.orders && m.t.orders[row.order] == "confirmed"
    ensures Legal(fs) && es <= fs && pid !in After(fs).active
    ensures After(fs).t == Apply(After(es).t, Accept(o, true, now, true)).0
    ensures Apply(After(es).t, Accept(o, true, now, true)).1 == Assigned(|After(es).t.assignments|, false)
  {
    AcceptedExactly(After(es).t, o, true, now, true);
    AcceptanceWrites(After(es).t, o, true, now, true);
    fs := Locks(es, pid, o);
    fs := Checks(fs, pid, now);
    fs := Writes(fs, pid);
    Reachable(fs);
    StepRefines(After(fs), Commit(pid));
    Goes(fs, Commit(pid));
    fs := fs + [Commit(pid)];
  }
  /** A decision on an unlocked offer it may decide commits likewise. */
  lemma ResolutionCommits(es: seq<Step>, pid: nat, o: string, status: OfferStatus, now: int) returns (fs: seq<Step>)
    requires Legal(es)
    requires var m := After(es);
             && pid !in m.active && o in m.t.offers && o !in m.offerLocks && m.t.offers[o].status == Pending
             && (status == Declined || status == Cancelled || (status == Expired && m.t.offers[o].expires <= now))
    ensures Legal(fs) && es <= fs && pid !in After(fs).active
    ensures After(fs).t == After(es).t.(offers := After(es).t.offers[o := After(es).t.offers[o].(status := status)])
  {
    Goes(es, LockResolve(pid, o, status, now));
    fs := es + [LockResolve(pid, o, status, now)];
    Goes(fs, Commit(pid));
    fs := fs + [Commit(pid)];
  }
}
