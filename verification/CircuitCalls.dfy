/** The calls of one process, statement by statement, with no other process in
    between: every file operation may raise, and what each call answers and
    leaves in the directory is stated for every set of operations that do. */
module CircuitCalls {
  import opened Wrappers
  import opened CircuitDisk
  import ProviderCircuit
  import opened SyntheticRunner

  datatype CircuitError =
    | StoreUnavailable
    | CircuitOpen
    | ReleaseUnverified
    | BusyOrAbandoned
    | PermitMismatch
    | GrantInvalid
    | GrantAlreadyUsed
    | ProviderRaised

  /** The places of a call where the store may raise. */
  datatype Place =
    AtOpen | AtCreate | AtWrite | AtFileSync | AtDirectorySync | AtUnlink | AtUnlinkSync | AtRelease

  predicate Persists(faults: set<Place>) {
    AtCreate !in faults && AtWrite !in faults && AtFileSync !in faults && AtDirectorySync !in faults
  }

  predicate Removes(faults: set<Place>) {
    AtUnlink !in faults && AtUnlinkSync !in faults
  }

  predicate GrantChar(c: char) {
    'a' <= c <= 'z' || '0' <= c <= '9' || c == '-'
  }

  predicate GrantName(grant: string) {
    1 <= |grant| <= 64 && forall i | 0 <= i < |grant| :: GrantChar(grant[i])
  }

  /** The open marker is there and tells the failure, and no crash can change that. */
  ghost predicate Tells(d: Disk, failure: Failure) {
    Pinned(d, Open) && Open in View(d) && View(d)[Open] < |d.files| && d.files[View(d)[Open]] == Body(Reason(failure), true)
  }

  class StateDirectory {
    var disk: Disk

    /** Create a file exclusively, write it, fsync it and fsync the directory. */
    method Persist(name: Name, content: Content, faults: set<Place>) returns (ok: bool)
      modifies this
      ensures ok <==> name !in View(old(disk)) && Persists(faults)
      ensures name in View(old(disk)) ==> disk == old(disk)
      ensures ok ==>
                && View(disk) == View(old(disk))[name := |old(disk).files|]
                && disk.durable == View(disk) && disk.pending == []
                && disk.files == old(disk).files + [Body(content, true)]
      ensures !ok ==> disk == old(disk)
                      || (name !in View(old(disk)) && View(disk) == View(old(disk))[name := |old(disk).files|])
      ensures forall n | n != name && Pinned(old(disk), n) :: Pinned(disk, n)
    {
      if name in View(disk) { return false; }
      if AtCreate in faults { return false; }
      var inode := |disk.files|;
      PinnedFacts(disk, name);
      CreateFacts(disk, name);
      disk := Create(disk, name);
      if AtWrite in faults { return false; }
      disk := WriteBody(disk, inode, content);
      if AtFileSync in faults { return false; }
      disk := SyncBody(disk, inode);
      assert disk.files == old(disk).files + [Body(content, true)];
      if AtDirectorySync in faults { return false; }
      forall n { PinnedFacts(disk, n); }
      SyncFacts(disk);
      disk := SyncDirectory(disk);
      return true;
    }

    /** A grant id names its claim file: a claim made is a claim that stays. */
    method Consume(grant: string, faults: set<Place>) returns (r: Result<string, CircuitError>)
      modifies this
      ensures r == if !GrantName(grant) then Err(GrantInvalid)
                   else if AtOpen in faults then Err(StoreUnavailable)
                   else if Consumed(grant) in View(old(disk)) then Err(GrantAlreadyUsed)
                   else if !Persists(faults) then Err(StoreUnavailable) else Ok(grant)
      ensures r.Ok? ==> Pinned(disk, Consumed(grant))
      ensures Consumed(grant) in View(old(disk)) ==> disk == old(disk)
      ensures forall n: Name | !n.Consumed? :: n in View(disk) <==> n in View(old(disk))
      ensures forall n | Pinned(old(disk), n) :: Pinned(disk, n)
    {
      forall n { PinnedFacts(disk, n); }
      if !GrantName(grant) { return Err(GrantInvalid); }
      if AtOpen in faults { return Err(StoreUnavailable); }
      if Consumed(grant) in View(disk) { return Err(GrantAlreadyUsed); }
      var ok := Persist(Consumed(grant), Blank, faults);
      if !ok { return Err(StoreUnavailable); }
      return Ok(grant);
    }

    /** A permit is returned exactly over an unblocked directory that raises nowhere, and
        then the active marker carrying its token is durable. A call that raises leaves at
        most an active marker behind, which blocks. */
    method Reserve(token: Token, faults: set<Place>) returns (r: Result<Token, CircuitError>)
      modifies this
      ensures r == if AtOpen in faults then Err(StoreUnavailable)
                   else if Open in View(old(disk)) then Err(CircuitOpen)
                   else if Releasing in View(old(disk)) then Err(ReleaseUnverified)
                   else if Active in View(old(disk)) then Err(BusyOrAbandoned)
                   else if !Persists(faults) then Err(StoreUnavailable) else Ok(token)
      ensures r.Ok? ==>
                && View(disk) == View(old(disk))[Active := |old(disk).files|]
                && Pinned(disk, Active) && disk.files == old(disk).files + [Body(Permit(token), true)]
      ensures Blocked(View(old(disk))) ==> disk == old(disk)
      ensures r.Err? ==> disk == old(disk) || View(disk) == View(old(disk))[Active := |old(disk).files|]
      ensures forall n | Pinned(old(disk), n) :: Pinned(disk, n)
    {
      if AtOpen in faults { return Err(StoreUnavailable); }
      if Open in View(disk) { return Err(CircuitOpen); }
      if Releasing in View(disk) { return Err(ReleaseUnverified); }
      if Active in View(disk) { return Err(BusyOrAbandoned); }
      PinnedFacts(disk, Active);
      var ok := Persist(Active, Permit(token), faults);
      if !ok { return Err(StoreUnavailable); }
      return Ok(token);
    }

    /** Unlink the active marker and fsync the directory. */
    method RemoveActive(faults: set<Place>) returns (ok: bool)
      modifies this
      ensures ok <==> Removes(faults)
      ensures disk.files == old(disk).files
      ensures View(disk) == View(old(disk)) || View(disk) == View(old(disk)) - {Active}
      ensures ok ==> View(disk) == View(old(disk)) - {Active} && Gone(disk, Active)
      ensures forall n | n != Active && Pinned(old(disk), n) :: Pinned(disk, n)
    {
      if AtUnlink in faults { return false; }
      PushFacts(disk, Drop(Active));
      disk := Push(disk, Drop(Active));
      if AtUnlinkSync in faults { return false; }
      forall n { PinnedFacts(disk, n); }
      SyncFacts(disk);
      disk := SyncDirectory(disk);
      return true;
    }

    /** With the token of the active marker, no guard of its kind yet and a store that does
        not raise, finishing succeeds: without a failure it ends unblocked, with the active
        marker gone for good; with one, the open marker durably tells it. Every other end
        leaves a blocked directory blocked. */
    method Finish(token: Token, failure: Option<Failure>, faults: set<Place>) returns (r: Result<(), CircuitError>)
      modifies this
      ensures r == if AtOpen in faults || Active !in View(old(disk)) then Err(StoreUnavailable)
                   else if !ActiveHolds(old(disk), token) then Err(PermitMismatch)
                   else if ProviderCircuit.Guard(failure) in View(old(disk)) || !Persists(faults) || !Removes(faults)
                           || (failure.None? && AtRelease in faults) then Err(StoreUnavailable)
                   else Ok(())
      ensures !ActiveHolds(old(disk), token) ==> disk == old(disk)
      ensures r.Ok? && failure.None? ==> View(disk) == View(old(disk)) - {Active} && Gone(disk, Active)
      ensures r.Ok? && failure.Some? ==>
                && View(disk) == View(old(disk))[Open := |old(disk).files|] - {Active}
                && disk.files == old(disk).files + [Body(Reason(failure.value), true)]
                && Tells(disk, failure.value) && Gone(disk, Active)
      ensures r.Err? && Blocked(View(old(disk))) ==> Blocked(View(disk))
      ensures r.Err? && SafelyBlocked(old(disk)) ==> SafelyBlocked(disk)
      ensures forall g | Pinned(old(disk), Consumed(g)) :: Pinned(disk, Consumed(g))
    {
      if AtOpen in faults { return Err(StoreUnavailable); }
      if Active !in View(disk) { return Err(StoreUnavailable); }
      if !ActiveHolds(disk, token) { return Err(PermitMismatch); }
      var guard := if failure.None? then Releasing else Open;
      PinnedFacts(disk, guard);
      var content := if failure.None? then Permit(token) else Reason(failure.value);
      var ok := Persist(guard, content, faults);
      if !ok { return Err(StoreUnavailable); }
      assert Pinned(disk, guard);
      var removed := RemoveActive(faults);
      PinnedFacts(disk, guard);
      if !removed { return Err(StoreUnavailable); }
      if failure.None? {
        if AtRelease in faults { return Err(StoreUnavailable); }
        PushFacts(disk, Drop(Releasing));
        disk := Push(disk, Drop(Releasing));
      }
      return Ok(());
    }

    /** One invocation. The capability checks and the grant's validation are the
        parameter authorized; report is None when the provider run raises. The run starts
        exactly with an approved, well-named, unclaimed grant and an unblocked directory,
        when neither the claim nor the reservation raises. Once it started, its grant is
        consumed for good, and every end but the clean one leaves the circuit blocked
        through any crash. */
    method RunSynthetic(authorized: bool, grant: string, token: Token, report: Option<Report>,
                        claiming: set<Place>, reserving: set<Place>, finishing: set<Place>)
      returns (r: Result<Report, CircuitError>, started: bool)
      modifies this
      ensures started <==>
                && authorized && GrantName(grant) && Consumed(grant) !in View(old(disk)) && !Blocked(View(old(disk)))
                && AtOpen !in claiming && Persists(claiming) && AtOpen !in reserving && Persists(reserving)
      ensures started ==> Pinned(disk, Consumed(grant))
      ensures r.Ok? <==>
                && started && report.Some? && AtOpen !in finishing && Persists(finishing) && Removes(finishing)
                && (FinishFailure(report.value).None? ==> AtRelease !in finishing)
      ensures r.Ok? ==> report == Some(r.value)
      ensures started && report.None? ==>
                r == Err(if AtOpen !in finishing && Persists(finishing) && Removes(finishing) then ProviderRaised
                         else StoreUnavailable)
      ensures started && (r.Ok? || r == Err(ProviderRaised)) ==>
                var failure := if report.None? then Some(Safety) else FinishFailure(report.value);
                failure.Some? ==> Tells(disk, failure.value)
      ensures started && !(r.Ok? && FinishFailure(r.value).None?) ==> SafelyBlocked(disk)
      ensures started && r.Ok? && FinishFailure(r.value).None? ==> !Blocked(View(disk)) && Gone(disk, Active)
      ensures !started ==> r.Err? && (Blocked(View(old(disk))) ==> Blocked(View(disk)))
      ensures SafelyBlocked(old(disk)) ==> SafelyBlocked(disk) && !started
    {
      forall n { PinnedFacts(disk, n); }
      if !authorized { return Err(GrantInvalid), false; }
      var claim := Consume(grant, claiming);
      if claim.Err? { return Err(claim.error), false; }
      var permit := Reserve(token, reserving);
      if permit.Err? { return Err(permit.error), false; }
      assert SafelyBlocked(disk);
      PinnedFacts(disk, Active);
      started := true;
      if report.None? {
        var latched := Finish(permit.value, Some(Safety), finishing);
        if latched.Err? { return Err(latched.error), true; }
        return Err(ProviderRaised), true;
      }
      var finished := Finish(permit.value, FinishFailure(report.value), finishing);
      if finished.Err? { return Err(finished.error), true; }
      return Ok(report.value), true;
    }
  }
}
