/** Whole histories of run_synthetic invocations over the latch machine: claim a
    grant, reserve the circuit, run the provider once, finish with the outcome. */
module SyntheticRunner {
  import opened Wrappers
  import opened CircuitDisk
  import opened ProviderCircuit

  /** An invocation claims first, reserves only after its claim, and finishes
      only the permit it holds. The registry of approved grants is a parameter. */
  predicate Disciplined(approved: set<string>, s: Machine, e: Event)
    requires Enabled(s, e)
  {
    match e
    case CallClaim(p, g) => s.procs[p].Fresh? && g in approved
    case CallReserve(p) => s.procs[p].Claimed?
    case CallFinish(p, t, _) => s.procs[p] == Holding(t)
    case _ => true
  }

  predicate RunnerLegal(approved: set<string>, s: Machine, es: seq<Event>)
    decreases |es|
  {
    es == [] || (Enabled(s, es[0]) && Disciplined(approved, s, es[0])
                 && RunnerLegal(approved, Step(s, es[0]), es[1..]))
  }

  function RunnerRun(approved: set<string>, s: Machine, es: seq<Event>): Machine
    requires RunnerLegal(approved, s, es)
    decreases |es|
  {
    if es == [] then s else RunnerRun(approved, Step(s, es[0]), es[1..])
  }

  // ------------------------------------------------------------- outcome

  datatype ProviderOutcome = ResponseReceived | NoResponse | ProviderTimeout | ProviderRateLimited | OtherOutcome

  datatype Report = Report(recommended: bool, outcome: ProviderOutcome, requestsStarted: int)

  /** The failure an invocation hands to finish after its provider run returned. */
  function FinishFailure(r: Report): (f: Option<Failure>)
    ensures f.None? <==> r.recommended && r.outcome.ResponseReceived? && r.requestsStarted == 1
  {
    if !r.recommended || !r.outcome.ResponseReceived? || r.requestsStarted != 1 then
      match r.outcome
      case NoResponse => Some(Unavailable)
      case ProviderTimeout => Some(Timeout)
      case ProviderRateLimited => Some(RateLimited)
      case _ => Some(Safety)
    else None
  }

  /** The reason a failed report leaves behind. */
  lemma FailureTold(r: Report)
    requires !r.recommended || !r.outcome.ResponseReceived? || r.requestsStarted != 1
    ensures FinishFailure(r) == Some(Unavailable) <==> r.outcome == NoResponse
    ensures FinishFailure(r) == Some(Timeout) <==> r.outcome == ProviderTimeout
    ensures FinishFailure(r) == Some(RateLimited) <==> r.outcome == ProviderRateLimited
    ensures FinishFailure(r) == Some(Safety) <==> r.outcome == ResponseReceived || r.outcome == OtherOutcome
  {
  }

  // ------------------------------------------------------------- invariant

  /** The permit an invocation holds, from its return until its release. */
  function OwnToken(pc: Pc): Option<Token> {
    if pc.Holding? then Some(pc.token) else FinishToken(pc)
  }

  /** How far an invocation got: before its claim, before its run, or later. */
  datatype Stage = Unclaimed | Unrun | Later

  function StageOf(pc: Pc): Stage {
    if pc.Fresh? || InClaim(pc) then Unclaimed
    else if pc.Claimed? || InReserve(pc) then Unrun
    else Later
  }

  ghost predicate OwnerInv(s: Machine) {
    && (forall p | p in s.procs && OwnToken(s.procs[p]).Some? ::
          OwnToken(s.procs[p]).value in s.granted - s.released)
    && (forall p, q | p in s.procs && q in s.procs && p != q && OwnToken(s.procs[p]).Some? ::
          OwnToken(s.procs[p]) != OwnToken(s.procs[q]))
  }

  function ClaimPids(claims: seq<Claim>): set<Pid> {
    set c | c in claims :: c.pid
  }

  ghost predicate CountInv(s: Machine) {
    && (forall p | p in s.runs :: p in ClaimPids(s.claims) && p in s.used)
    && (forall i, j | 0 <= i < j < |s.runs| :: s.runs[i] != s.runs[j])
    && ClaimPids(s.claims) <= s.used
    && (forall p | p in s.procs && !StageOf(s.procs[p]).Later? :: p !in s.runs)
    && (forall p | p in s.procs && StageOf(s.procs[p]).Unclaimed? :: p !in ClaimPids(s.claims))
    && (forall p | p in s.procs && StageOf(s.procs[p]).Unrun? :: p in ClaimPids(s.claims))
  }

  ghost predicate RunnerInv(s: Machine) {
    Inv(s) && OwnerInv(s) && CountInv(s)
  }

  /** A run was started with t, and its invocation is over without a clean release. */
  ghost predicate Orphaned(s: Machine, t: Token) {
    && t in s.granted - s.released
    && forall p | p in s.procs :: OwnToken(s.procs[p]) != Some(t)
  }

  /** What one file operation adds to the history, by the place it happens. */
  ghost predicate HistoryStep(s: Machine, s': Machine, p: Pid) {
    && p in s.procs && p in s'.procs && s'.procs == s.procs[p := s'.procs[p]] && s'.used == s.used
    && (var pc, pc' := s.procs[p], s'.procs[p];
        if s'.claims != s.claims then
          && pc.ClaimSyncDir? && s'.claims == s.claims + [Claim(p, pc.grant)] && pc' == Claimed(pc.grant)
          && s'.runs == s.runs && s'.granted == s.granted && s'.released == s.released
        else if s'.runs != s.runs then
          && pc.ReserveSyncDir? && pc' == Holding(pc.token)
          && s'.runs == s.runs + [p] && s'.granted == s.granted + {pc.token} && s'.released == s.released
        else
          && s'.granted == s.granted
          && (s'.released == s.released
              || (pc.DropReleasing? && s'.released == s.released + {pc.token} && pc' == Closed(pc.token, None)))
          && (StageOf(pc').Later? || StageOf(pc') == StageOf(pc))
          && (OwnToken(pc').None? || OwnToken(pc') == OwnToken(pc)))
  }

  lemma ClaimHistory(s: Machine, e: Event)
    requires Enabled(s, e) && e.Go? && InClaim(s.procs[e.pid])
    ensures HistoryStep(s, Step(s, e), e.pid)
  {
  }

  lemma ReserveHistory(s: Machine, e: Event)
    requires Enabled(s, e) && e.Go? && InReserve(s.procs[e.pid])
    ensures HistoryStep(s, Step(s, e), e.pid)
  {
  }

  lemma GuardHistory(s: Machine, e: Event)
    requires Enabled(s, e) && e.Go?
    requires var pc := s.procs[e.pid]; pc.FinishLock? || pc.FinishRead? || pc.GuardCreate?
                                       || pc.GuardWrite? || pc.GuardSyncFile?
    ensures HistoryStep(s, Step(s, e), e.pid)
  {
  }

  lemma DropHistory(s: Machine, e: Event)
    requires Enabled(s, e) && e.Go? && (s.procs[e.pid].GuardSyncDir? || s.procs[e.pid].DropActive?)
    ensures HistoryStep(s, Step(s, e), e.pid)
  {
  }

  lemma ReleaseHistory(s: Machine, e: Event)
    requires Enabled(s, e) && e.Go? && (s.procs[e.pid].DropSync? || s.procs[e.pid].DropReleasing?)
    ensures HistoryStep(s, Step(s, e), e.pid)
  {
  }

  lemma CallHistory(approved: set<string>, s: Machine, e: Event)
    requires Enabled(s, e) && Disciplined(approved, s, e)
    requires e.CallClaim? || e.CallReserve? || e.CallFinish? || e.Fault?
    ensures HistoryStep(s, Step(s, e), e.pid)
  {
  }

  lemma ClaimPidsPush(claims: seq<Claim>, c: Claim)
    ensures ClaimPids(claims + [c]) == ClaimPids(claims) + {c.pid}
  {
    assert forall d :: d in claims + [c] <==> d in claims || d == c;
  }

  lemma OwnerReleased(s: Machine, s': Machine, p: Pid)
    requires RunnerInv(s) && HistoryStep(s, s', p) && s'.released != s.released
    ensures OwnerInv(s')
  {
    assert PcInv(s, s.procs[p]);
    assert s.granted - s.released == {s.procs[p].token};
  }

  lemma OwnerGranted(s: Machine, s': Machine, p: Pid)
    requires RunnerInv(s) && HistoryStep(s, s', p) && s'.released == s.released && s'.runs != s.runs
    ensures OwnerInv(s')
  {
    assert PcInv(s, s.procs[p]);
  }

  lemma OwnerKept(s: Machine, s': Machine, p: Pid)
    requires OwnerInv(s) && HistoryStep(s, s', p) && s'.released == s.released && s'.runs == s.runs
    ensures OwnerInv(s')
  {
  }

  lemma OwnerGo(s: Machine, s': Machine, p: Pid)
    requires RunnerInv(s) && HistoryStep(s, s', p)
    ensures OwnerInv(s')
  {
    if s'.released != s.released {
      OwnerReleased(s, s', p);
    } else if s'.runs != s.runs {
      OwnerGranted(s, s', p);
    } else {
      OwnerKept(s, s', p);
    }
  }

  lemma CountClaimed(s: Machine, s': Machine, p: Pid)
    requires CountInv(s) && s.procs.Keys <= s.used && HistoryStep(s, s', p) && s'.claims != s.claims
    ensures CountInv(s')
  {
    ClaimPidsPush(s.claims, Claim(p, s.procs[p].grant));
  }

  lemma CountRun(s: Machine, s': Machine, p: Pid)
    requires CountInv(s) && s.procs.Keys <= s.used && HistoryStep(s, s', p)
    requires s'.claims == s.claims && s'.runs != s.runs
    ensures CountInv(s')
  {
  }

  lemma CountKept(s: Machine, s': Machine, p: Pid)
    requires CountInv(s) && HistoryStep(s, s', p) && s'.claims == s.claims && s'.runs == s.runs
    ensures CountInv(s')
  {
  }

  lemma CountGo(s: Machine, s': Machine, p: Pid)
    requires CountInv(s) && s.procs.Keys <= s.used && HistoryStep(s, s', p)
    ensures CountInv(s')
  {
    if s'.claims != s.claims {
      CountClaimed(s, s', p);
    } else if s'.runs != s.runs {
      CountRun(s, s', p);
    } else {
      CountKept(s, s', p);
    }
  }

  lemma MembersStep(s: Machine, e: Event)
    requires RunnerInv(s) && Enabled(s, e) && (e.Spawn? || e.Die? || e.Crash?)
    ensures OwnerInv(Step(s, e)) && CountInv(Step(s, e))
  {
  }

  lemma RunnerStepInv(approved: set<string>, s: Machine, e: Event)
    requires RunnerInv(s) && Enabled(s, e) && Disciplined(approved, s, e)
    ensures RunnerInv(Step(s, e))
  {
    StepInv(s, e);
    if e.Spawn? || e.Die? || e.Crash? {
      MembersStep(s, e);
    } else {
      PidHistory(approved, s, e);
      OwnerGo(s, Step(s, e), e.pid);
      CountGo(s, Step(s, e), e.pid);
    }
  }

  lemma PidHistory(approved: set<string>, s: Machine, e: Event)
    requires Enabled(s, e) && Disciplined(approved, s, e) && !e.Spawn? && !e.Die? && !e.Crash?
    ensures HistoryStep(s, Step(s, e), e.pid)
  {
    if !e.Go? {
      CallHistory(approved, s, e);
    } else if InClaim(s.procs[e.pid]) {
      ClaimHistory(s, e);
    } else if InReserve(s.procs[e.pid]) {
      ReserveHistory(s, e);
    } else if s.procs[e.pid].GuardSyncDir? || s.procs[e.pid].DropActive? {
      DropHistory(s, e);
    } else if s.procs[e.pid].DropSync? || s.procs[e.pid].DropReleasing? {
      ReleaseHistory(s, e);
    } else {
      GuardHistory(s, e);
    }
  }

  lemma {:induction false} RunnerRunInv(approved: set<string>, s: Machine, es: seq<Event>)
    requires RunnerInv(s) && RunnerLegal(approved, s, es)
    ensures RunnerInv(RunnerRun(approved, s, es))
    decreases |es|
  {
    if es != [] {
      RunnerStepInv(approved, s, es[0]);
      RunnerRunInv(approved, Step(s, es[0]), es[1..]);
    }
  }

  lemma ReachableRunner(approved: set<string>, es: seq<Event>)
    requires RunnerLegal(approved, Init, es)
    ensures RunnerInv(RunnerRun(approved, Init, es))
  {
    InitInv();
    RunnerRunInv(approved, Init, es);
  }

  // ------------------------------------------------------------- main results

  function Elements(xs: seq<Pid>): set<Pid> {
    set x | x in xs
  }

  lemma {:induction false} DistinctCount(xs: seq<Pid>)
    requires forall i, j | 0 <= i < j < |xs| :: xs[i] != xs[j]
    ensures |Elements(xs)| == |xs|
  {
    if xs != [] {
      var init, last := xs[..|xs| - 1], xs[|xs| - 1];
      DistinctCount(init);
      assert xs == init + [last];
      assert Elements(xs) == Elements(init) + {last};
    }
  }

  lemma {:induction false} ClaimPidsCount(claims: seq<Claim>)
    ensures |ClaimPids(claims)| <= |claims|
  {
    if claims != [] {
      var init, last := claims[..|claims| - 1], claims[|claims| - 1];
      ClaimPidsCount(init);
      ClaimPidsPush(init, last);
      assert claims == init + [last];
    }
  }

  lemma SubsetCount(a: set<Pid>, b: set<Pid>)
    requires a <= b
    ensures |a| <= |b|
  {
    assert b == a + (b - a);
  }

  /** Over any history with faults, deaths and crashes: a grant is consumed at
      most once, every provider run belongs to the one claim of its invocation,
      runs never outnumber consumed grants, and no two permits are out at once. */
  lemma GrantsBoundRuns(approved: set<string>, es: seq<Event>)
    requires RunnerLegal(approved, Init, es)
    ensures var s := RunnerRun(approved, Init, es);
            && (forall i, j | 0 <= i < j < |s.claims| :: s.claims[i].grant != s.claims[j].grant)
            && (forall i, j | 0 <= i < j < |s.runs| :: s.runs[i] != s.runs[j])
            && (forall p | p in s.runs :: p in ClaimPids(s.claims))
            && |s.runs| <= |s.claims|
            && (forall p, q | p in s.procs && q in s.procs && OwnToken(s.procs[p]).Some?
                              && OwnToken(s.procs[q]).Some? :: p == q)
  {
    var s := RunnerRun(approved, Init, es);
    ReachableRunner(approved, es);
    DistinctCount(s.runs);
    ClaimPidsCount(s.claims);
    forall p, q | p in s.procs && q in s.procs && OwnToken(s.procs[p]).Some? && OwnToken(s.procs[q]).Some?
      ensures p == q
    {
      assert OwnToken(s.procs[p]).value in s.granted - s.released;
      assert OwnToken(s.procs[q]).value in s.granted - s.released;
    }
    SubsetCount(Elements(s.runs), ClaimPids(s.claims));
  }

  /** However an invocation that held a permit stops holding it, either the
      permit was cleanly released, or nobody can ever release it. */
  lemma EndedCleanOrOrphaned(approved: set<string>, s: Machine, e: Event, p: Pid)
    requires RunnerInv(s) && Enabled(s, e) && Disciplined(approved, s, e)
    requires p in s.procs && OwnToken(s.procs[p]).Some?
    ensures var t := OwnToken(s.procs[p]).value;
            var s' := Step(s, e);
            || (p in s'.procs && OwnToken(s'.procs[p]) == Some(t))
            || (t in s'.released && p in s'.procs && s'.procs[p] == Closed(t, None))
            || Orphaned(s', t)
  {
    if !e.Spawn? && !e.Die? && !e.Crash? {
      PidHistory(approved, s, e);
    }
  }

  lemma OrphanStays(approved: set<string>, s: Machine, e: Event, t: Token)
    requires RunnerInv(s) && Enabled(s, e) && Disciplined(approved, s, e)
    requires Orphaned(s, t)
    ensures Orphaned(Step(s, e), t) && Step(s, e).runs == s.runs
  {
    NoNewPermit(s, e);
    if !e.Spawn? && !e.Die? && !e.Crash? {
      PidHistory(approved, s, e);
    }
  }

  /** After an invocation that had been granted a permit ended other than in clean
      success, no provider run is ever started again, whatever the later invocations,
      faults and crashes. */
  lemma {:induction false} NoRunAfterBadEnd(approved: set<string>, s: Machine, es: seq<Event>, t: Token)
    requires RunnerInv(s) && RunnerLegal(approved, s, es)
    requires Orphaned(s, t)
    ensures RunnerRun(approved, s, es).runs == s.runs
    ensures Blocked(View(RunnerRun(approved, s, es).disk))
    decreases |es|
  {
    if es == [] {
      assert SafelyBlocked(s.disk);
      ViewFacts(s.disk);
    } else {
      OrphanStays(approved, s, es[0], t);
      RunnerStepInv(approved, s, es[0]);
      NoRunAfterBadEnd(approved, Step(s, es[0]), es[1..], t);
    }
  }
}