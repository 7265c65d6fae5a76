/** The end of an invocation in whole histories: a lost permit stops every later run, a
    refusal before the permit stops none. */
module RunnerHistories {
  import opened Wrappers
  import opened CircuitDisk
  import opened ProviderCircuit
  import opened SyntheticRunner

  /** The machine after the first i events. */
  function StateAt(approved: set<string>, s: Machine, es: seq<Event>, i: nat): Machine
    requires RunnerLegal(approved, s, es) && i <= |es|
    decreases i
  {
    if i == 0 then s else StateAt(approved, Step(s, es[0]), es[1..], i - 1)
  }

  predicate Holds(s: Machine, p: Pid, t: Token) {
    p in s.procs && OwnToken(s.procs[p]) == Some(t)
  }

  /** The permit is still held, was cleanly released, or can never be released. */
  ghost predicate Accounted(s: Machine, p: Pid, t: Token) {
    Holds(s, p, t) || t in s.released || Orphaned(s, t)
  }

  /** One event of a disciplined history. */
  ghost predicate Follows(approved: set<string>, s: Machine, e: Event, s': Machine) {
    RunnerInv(s) && Enabled(s, e) && Disciplined(approved, s, e) && s' == Step(s, e)
  }

  lemma {:induction false} StateNext(approved: set<string>, s: Machine, es: seq<Event>, i: nat)
    requires RunnerInv(s) && RunnerLegal(approved, s, es) && i < |es|
    ensures Follows(approved, StateAt(approved, s, es, i), es[i], StateAt(approved, s, es, i + 1))
    decreases i
  {
    if i > 0 {
      RunnerStepInv(approved, s, es[0]);
      StateNext(approved, Step(s, es[0]), es[1..], i - 1);
    }
  }

  lemma AccountedNext(approved: set<string>, s: Machine, e: Event, s': Machine, p: Pid, t: Token)
    requires Follows(approved, s, e, s') && Accounted(s, p, t)
    ensures Accounted(s', p, t)
  {
    HistoryGrows(s, e);
    if Orphaned(s, t) {
      OrphanStays(approved, s, e, t);
    } else if Holds(s, p, t) {
      EndedCleanOrOrphaned(approved, s, e, p);
    }
  }

  lemma {:induction false} AccountedAt(
    approved: set<string>, s: Machine, es: seq<Event>, i: nat, j: nat, p: Pid, t: Token)
    requires RunnerInv(s) && RunnerLegal(approved, s, es) && i <= j <= |es|
    requires Accounted(StateAt(approved, s, es, i), p, t)
    ensures Accounted(StateAt(approved, s, es, j), p, t)
    decreases j - i
  {
    if i < j {
      AccountedAt(approved, s, es, i, j - 1, p, t);
      StateNext(approved, s, es, j - 1);
      AccountedNext(approved, StateAt(approved, s, es, j - 1), es[j - 1], StateAt(approved, s, es, j), p, t);
    }
  }

  lemma OrphanNext(approved: set<string>, s: Machine, e: Event, s': Machine, t: Token)
    requires Follows(approved, s, e, s') && Orphaned(s, t)
    ensures Orphaned(s', t) && s'.runs == s.runs
  {
    OrphanStays(approved, s, e, t);
  }

  lemma {:induction false} OrphanAt(approved: set<string>, s: Machine, es: seq<Event>, j: nat, k: nat, t: Token)
    requires RunnerInv(s) && RunnerLegal(approved, s, es) && j <= k <= |es|
    requires Orphaned(StateAt(approved, s, es, j), t)
    ensures Orphaned(StateAt(approved, s, es, k), t)
    ensures StateAt(approved, s, es, k).runs == StateAt(approved, s, es, j).runs
    decreases k - j
  {
    if j < k {
      OrphanAt(approved, s, es, j, k - 1, t);
      StateNext(approved, s, es, k - 1);
      OrphanNext(approved, StateAt(approved, s, es, k - 1), es[k - 1], StateAt(approved, s, es, k), t);
    }
  }

  lemma {:induction false} InvAt(approved: set<string>, s: Machine, es: seq<Event>, i: nat)
    requires RunnerInv(s) && RunnerLegal(approved, s, es) && i <= |es|
    ensures RunnerInv(StateAt(approved, s, es, i))
    decreases i
  {
    if i > 0 {
      RunnerStepInv(approved, s, es[0]);
      InvAt(approved, Step(s, es[0]), es[1..], i - 1);
    }
  }

  lemma OrphanBlocks(s: Machine, t: Token)
    requires RunnerInv(s) && Orphaned(s, t)
    ensures Blocked(View(s.disk))
  {
    assert SafelyBlocked(s.disk);
    ViewFacts(s.disk);
  }

  /** Over every history from the empty directory: once the invocation that held a permit
      holds it no more and has not released it, no later event starts a provider run and
      the directory stays blocked. */
  lemma NoRunAfterLostPermit(approved: set<string>, es: seq<Event>, i: nat, j: nat, k: nat, p: Pid, t: Token)
    requires RunnerLegal(approved, Init, es) && i <= j <= k <= |es|
    requires Holds(StateAt(approved, Init, es, i), p, t)
    requires !Holds(StateAt(approved, Init, es, j), p, t) && t !in StateAt(approved, Init, es, j).released
    ensures StateAt(approved, Init, es, k).runs == StateAt(approved, Init, es, j).runs
    ensures Blocked(View(StateAt(approved, Init, es, k).disk))
  {
    InitInv();
    AccountedAt(approved, Init, es, i, j, p, t);
    OrphanAt(approved, Init, es, j, k, t);
    InvAt(approved, Init, es, k);
    OrphanBlocks(StateAt(approved, Init, es, k), t);
  }

  // ------------------------------------------------------------- refused before its permit

  lemma {:induction false} Extended(approved: set<string>, s: Machine, es: seq<Event>, e: Event)
    requires RunnerLegal(approved, s, es) && Enabled(RunnerRun(approved, s, es), e)
    requires Disciplined(approved, RunnerRun(approved, s, es), e)
    ensures RunnerLegal(approved, s, es + [e])
    ensures RunnerRun(approved, s, es + [e]) == Step(RunnerRun(approved, s, es), e)
    decreases |es|
  {
    if es == [] {
      assert es + [e] == [e] && [e][1..] == [];
    } else {
      Extended(approved, Step(s, es[0]), es[1..], e);
      assert (es + [e])[0] == es[0] && (es + [e])[1..] == es[1..] + [e];
    }
  }

  lemma {:induction false} Joined(approved: set<string>, s: Machine, es: seq<Event>, fs: seq<Event>)
    requires RunnerLegal(approved, s, es) && RunnerLegal(approved, RunnerRun(approved, s, es), fs)
    ensures RunnerLegal(approved, s, es + fs)
    ensures RunnerRun(approved, s, es + fs) == RunnerRun(approved, RunnerRun(approved, s, es), fs)
    decreases |es|
  {
    if es == [] {
      assert es + fs == fs;
    } else {
      Joined(approved, Step(s, es[0]), es[1..], fs);
      assert (es + fs)[0] == es[0] && (es + fs)[1..] == es[1..] + fs;
    }
  }

  lemma ClaimFront(approved: set<string>, s: Machine, p: Pid, g: string) returns (es: seq<Event>)
    requires p in s.procs && s.procs[p].Fresh? && g in approved && Consumed(g) !in View(s.disk)
    ensures RunnerLegal(approved, s, es)
    ensures RunnerRun(approved, s, es)
         == s.(procs := s.procs[p := ClaimSyncFile(g, |s.disk.files|)], disk := Create(s.disk, Consumed(g)))
  {
    es := [];
    Extended(approved, s, es, CallClaim(p, g));
    es := es + [CallClaim(p, g)];
    Extended(approved, s, es, Go(p, 0));
    es := es + [Go(p, 0)];
  }

  lemma ClaimBack(approved: set<string>, s: Machine, p: Pid, g: string, i: nat) returns (es: seq<Event>)
    requires p in s.procs && s.procs[p] == ClaimSyncFile(g, i) && i < |s.disk.files|
    ensures RunnerLegal(approved, s, es)
    ensures RunnerRun(approved, s, es)
         == s.(procs := s.procs[p := Claimed(g)], disk := SyncDirectory(SyncBody(s.disk, i)), claims := s.claims + [Claim(p, g)])
  {
    es := [];
    Extended(approved, s, es, Go(p, 0));
    es := es + [Go(p, 0)];
    Extended(approved, s, es, Go(p, 0));
    es := es + [Go(p, 0)];
  }

  /** A fresh invocation whose grant is approved and unclaimed can claim it. */
  lemma ClaimHistoryOf(approved: set<string>, s: Machine, p: Pid, g: string) returns (es: seq<Event>)
    requires p in s.procs && s.procs[p].Fresh? && g in approved && Consumed(g) !in View(s.disk)
    ensures RunnerLegal(approved, s, es)
    ensures var s' := RunnerRun(approved, s, es);
            && s'.procs == s.procs[p := Claimed(g)] && s'.lock == s.lock && s'.issued == s.issued && s'.runs == s.runs
            && (Blocked(View(s'.disk)) <==> Blocked(View(s.disk)))
  {
    var front := ClaimFront(approved, s, p, g);
    var between := RunnerRun(approved, s, front);
    var back := ClaimBack(approved, between, p, g, |s.disk.files|);
    Joined(approved, s, front, back);
    CreateFacts(s.disk, Consumed(g));
    SyncFacts(SyncBody(between.disk, |s.disk.files|));
    es := front + back;
  }

  lemma ReserveFront(approved: set<string>, s: Machine, p: Pid, t: Token) returns (es: seq<Event>)
    requires p in s.procs && s.procs[p].Claimed? && s.lock.None? && t !in s.issued && !Blocked(View(s.disk))
    ensures RunnerLegal(approved, s, es)
    ensures var r := RunnerRun(approved, s, es);
            && r.procs == s.procs[p := ReserveWrite(t, |s.disk.files|)] && |r.disk.files| == |s.disk.files| + 1
            && r.runs == s.runs
  {
    es := [];
    Extended(approved, s, es, CallReserve(p));
    es := es + [CallReserve(p)];
    Extended(approved, s, es, Go(p, t));
    es := es + [Go(p, t)];
    Extended(approved, s, es, Go(p, t));
    es := es + [Go(p, t)];
    Extended(approved, s, es, Go(p, t));
    es := es + [Go(p, t)];
  }

  lemma ReserveBack(approved: set<string>, s: Machine, p: Pid, t: Token, i: nat) returns (es: seq<Event>)
    requires p in s.procs && s.procs[p] == ReserveWrite(t, i) && i < |s.disk.files|
    ensures RunnerLegal(approved, s, es)
    ensures var r := RunnerRun(approved, s, es); r.procs == s.procs[p := Holding(t)] && r.runs == s.runs + [p]
  {
    es := [];
    Extended(approved, s, es, Go(p, t));
    es := es + [Go(p, t)];
    Extended(approved, s, es, Go(p, t));
    es := es + [Go(p, t)];
    Extended(approved, s, es, Go(p, t));
    es := es + [Go(p, t)];
  }

  /** A claimed invocation that finds the directory free and unlocked can start its run. */
  lemma ReserveHistoryOf(approved: set<string>, s: Machine, p: Pid, t: Token) returns (es: seq<Event>)
    requires p in s.procs && s.procs[p].Claimed? && s.lock.None? && t !in s.issued && !Blocked(View(s.disk))
    ensures RunnerLegal(approved, s, es)
    ensures var r := RunnerRun(approved, s, es); r.procs == s.procs[p := Holding(t)] && r.runs == s.runs + [p]
  {
    var front := ReserveFront(approved, s, p, t);
    var back := ReserveBack(approved, RunnerRun(approved, s, front), p, t, |s.disk.files|);
    Joined(approved, s, front, back);
    es := front + back;
  }

  /** The first invocation is refused at its claim, the second has just begun. */
  lemma RefusedHistory(approved: set<string>, a: string) returns (es: seq<Event>)
    requires a in approved
    ensures RunnerLegal(approved, Init, es)
    ensures var s := RunnerRun(approved, Init, es);
            && s.procs == map[0 := Denied, 1 := Fresh] && s.lock.None? && s.issued == {} && s.runs == []
            && View(s.disk) == map[]
  {
    es := [];
    Extended(approved, Init, es, Spawn(0));
    es := es + [Spawn(0)];
    Extended(approved, Init, es, CallClaim(0, a));
    es := es + [CallClaim(0, a)];
    Extended(approved, Init, es, Fault(0));
    es := es + [Fault(0)];
    Extended(approved, Init, es, Spawn(1));
    es := es + [Spawn(1)];
  }

  /** An invocation that is refused before it has a permit stops nobody: the first is
      refused at its claim, and the second starts a provider run. */
  lemma RefusedStopsNobody(approved: set<string>, a: string, g: string, t: Token) returns (es: seq<Event>)
    requires a in approved && g in approved
    ensures RunnerLegal(approved, Init, es)
    ensures var s := RunnerRun(approved, Init, es); s.procs == map[0 := Denied, 1 := Holding(t)] && s.runs == [1]
  {
    var refused := RefusedHistory(approved, a);
    var ready := RunnerRun(approved, Init, refused);
    var claim := ClaimHistoryOf(approved, ready, 1, g);
    Joined(approved, Init, refused, claim);
    var claimed := RunnerRun(approved, Init, refused + claim);
    var run := ReserveHistoryOf(approved, claimed, 1, t);
    Joined(approved, Init, refused + claim, run);
    es := refused + claim + run;
  }

  // ------------------------------------------------------------- a clean release clears the latch

  /** The process is in reserve past its check, or holds a permit. */
  predicate Reserving(pc: Pc) {
    pc.ReserveCreate? || pc.ReserveWrite? || pc.ReserveSyncFile? || pc.ReserveSyncDir? || pc.Holding?
  }

  /** What a reserving process finds: no guard, and once it holds the permit its marker. */
  predicate Found(d: Disk, pc: Pc) {
    Open !in View(d) && Releasing !in View(d) && (pc.Holding? ==> ActiveHolds(d, pc.token))
  }

  ghost predicate HoldInv(s: Machine) {
    forall p | p in s.procs && Reserving(s.procs[p]) :: Found(s.disk, s.procs[p])
  }

  ghost predicate SameMarkers(d: Disk, d': Disk) {
    && |d.files| <= |d'.files|
    && (forall i | 0 <= i < |d.files| :: d'.files[i].content == d.files[i].content)
    && (forall n: Name | n == Active || n == Releasing || n == Open ::
          (n in View(d') <==> n in View(d)) && (n in View(d) ==> View(d')[n] == View(d)[n]))
  }

  lemma FoundKept(d: Disk, d': Disk, pc: Pc)
    requires SameMarkers(d, d') && Found(d, pc)
    ensures Found(d', pc)
  {
  }

  /** A file operation of a process that is not at work on the markers. */
  lemma ClaimKeepsMarkers(s: Machine, e: Event)
    requires Inv(s) && Enabled(s, e) && e.Go? && InClaim(s.procs[e.pid])
    ensures SameMarkers(s.disk, Step(s, e).disk)
  {
    var pc := s.procs[e.pid];
    if pc.ClaimCreate? {
      if Consumed(pc.grant) !in View(s.disk) { CreateClaimKept(s.disk, pc.grant); }
    } else if pc.ClaimSyncDir? {
      SyncKept(s.disk);
    }
  }

  lemma OwnedIsLive(s: Machine, p: Pid)
    requires RunnerInv(s) && p in s.procs
    ensures OwnToken(s.procs[p]).Some? ==> OwnToken(s.procs[p]).value in s.granted - s.released
  {
  }

  /** While a process reserves or holds a permit, nobody else does, and nobody finishes. */
  lemma Alone(s: Machine, p: Pid, q: Pid)
    requires RunnerInv(s) && p in s.procs && q in s.procs && p != q && Reserving(s.procs[q])
    ensures !Reserving(s.procs[p]) && OwnToken(s.procs[p]).None?
  {
    OwnedIsLive(s, p);
    OwnedIsLive(s, q);
    assert PcInv(s, s.procs[p]) && PcInv(s, s.procs[q]);
  }

  /** A process that neither reserves nor finishes works at most on its claim. */
  lemma IdleKeepsMarkers(s: Machine, e: Event)
    requires Inv(s) && Enabled(s, e) && e.Go?
    requires !Reserving(s.procs[e.pid]) && OwnToken(s.procs[e.pid]).None?
    ensures SameMarkers(s.disk, Step(s, e).disk)
  {
    if InClaim(s.procs[e.pid]) {
      ClaimKeepsMarkers(s, e);
    } else {
      assert s.procs[e.pid].ReserveLock? || s.procs[e.pid].ReserveCheck?;
    }
  }

  lemma OthersKeepMarkers(approved: set<string>, s: Machine, e: Event, q: Pid)
    requires RunnerInv(s) && Enabled(s, e) && Disciplined(approved, s, e) && !e.Crash? && e.pid != q
    requires q in s.procs && Reserving(s.procs[q])
    ensures SameMarkers(s.disk, Step(s, e).disk)
  {
    if e.Go? {
      Alone(s, e.pid, q);
      IdleKeepsMarkers(s, e);
    }
  }

  lemma OwnReserveFinds(s: Machine, e: Event)
    requires RunnerInv(s) && Enabled(s, e) && e.Go? && InReserve(s.procs[e.pid]) && Reserving(Step(s, e).procs[e.pid])
    requires Reserving(s.procs[e.pid]) ==> Found(s.disk, s.procs[e.pid])
    ensures Found(Step(s, e).disk, Step(s, e).procs[e.pid])
  {
    var pc := s.procs[e.pid];
    assert PcInv(s, pc);
    if pc.ReserveCreate? {
      CreateFacts(s.disk, Active);
    } else if pc.ReserveSyncDir? {
      SyncFacts(s.disk);
    }
  }

  /** Only reserving leads a process to reserve or hold a permit. */
  lemma ReservingCame(approved: set<string>, s: Machine, e: Event)
    requires Enabled(s, e) && Disciplined(approved, s, e)
    requires !e.Crash? && !e.Die? && e.pid in Step(s, e).procs && Reserving(Step(s, e).procs[e.pid])
    ensures e.Go? && InReserve(s.procs[e.pid])
  {
    if e.Go? && !InClaim(s.procs[e.pid]) && !InReserve(s.procs[e.pid]) { FinishingStays(s, e); }
  }

  lemma FinishingStays(s: Machine, e: Event)
    requires Enabled(s, e) && e.Go? && !InClaim(s.procs[e.pid]) && !InReserve(s.procs[e.pid])
    ensures e.pid in Step(s, e).procs && !Reserving(Step(s, e).procs[e.pid])
  {
  }

  lemma OwnStepFinds(approved: set<string>, s: Machine, e: Event)
    requires RunnerInv(s) && HoldInv(s) && Enabled(s, e) && Disciplined(approved, s, e)
    requires !e.Crash? && !e.Die? && e.pid in Step(s, e).procs && Reserving(Step(s, e).procs[e.pid])
    ensures Found(Step(s, e).disk, Step(s, e).procs[e.pid])
  {
    ReservingCame(approved, s, e);
    OwnReserveFinds(s, e);
  }

  lemma OthersFind(approved: set<string>, s: Machine, e: Event, q: Pid)
    requires RunnerInv(s) && HoldInv(s) && Enabled(s, e) && Disciplined(approved, s, e) && !e.Crash? && e.pid != q
    requires q in s.procs && Reserving(s.procs[q])
    ensures Found(Step(s, e).disk, s.procs[q])
  {
    OthersKeepMarkers(approved, s, e, q);
    FoundKept(s.disk, Step(s, e).disk, s.procs[q]);
  }

  lemma OthersStandGo(s: Machine, e: Event, q: Pid)
    requires Enabled(s, e) && e.Go? && e.pid != q && q in Step(s, e).procs
    ensures q in s.procs && Step(s, e).procs[q] == s.procs[q]
  {
    if !InClaim(s.procs[e.pid]) && !InReserve(s.procs[e.pid]) {
      FinishStands(s, e, q);
    }
  }

  lemma FinishStands(s: Machine, e: Event, q: Pid)
    requires Enabled(s, e) && e.Go? && e.pid != q && !InClaim(s.procs[e.pid]) && !InReserve(s.procs[e.pid])
    ensures q in Step(s, e).procs <==> q in s.procs
    ensures q in s.procs ==> Step(s, e).procs[q] == s.procs[q]
  {
  }

  /** An event moves no process but its own; a crash leaves none. */
  lemma OthersStand(s: Machine, e: Event, q: Pid)
    requires Enabled(s, e) && q in Step(s, e).procs
    ensures !e.Crash?
    ensures e.pid != q ==> q in s.procs && Step(s, e).procs[q] == s.procs[q]
    ensures e.pid == q ==> !e.Die?
  {
    if e.Go? && e.pid != q { OthersStandGo(s, e, q); }
  }

  lemma HoldStep(approved: set<string>, s: Machine, e: Event)
    requires RunnerInv(s) && HoldInv(s) && Enabled(s, e) && Disciplined(approved, s, e)
    ensures HoldInv(Step(s, e))
  {
    var s' := Step(s, e);
    forall q | q in s'.procs && Reserving(s'.procs[q]) ensures Found(s'.disk, s'.procs[q]) {
      OthersStand(s, e, q);
      if e.pid != q {
        OthersFind(approved, s, e, q);
      } else {
        OwnStepFinds(approved, s, e);
      }
    }
  }

  lemma {:induction false} HoldRun(approved: set<string>, s: Machine, es: seq<Event>)
    requires RunnerInv(s) && HoldInv(s) && RunnerLegal(approved, s, es)
    ensures HoldInv(RunnerRun(approved, s, es))
    decreases |es|
  {
    if es != [] {
      HoldStep(approved, s, es[0]);
      RunnerStepInv(approved, s, es[0]);
      HoldRun(approved, Step(s, es[0]), es[1..]);
    }
  }

  /** In every history the holder of a permit finds its own marker and no guard. */
  lemma ReachableHold(approved: set<string>, es: seq<Event>)
    requires RunnerLegal(approved, Init, es)
    ensures HoldInv(RunnerRun(approved, Init, es))
  {
    InitInv();
    HoldRun(approved, Init, es);
  }

  predicate OwnSteps(es: seq<Event>, p: Pid) {
    forall i | 0 <= i < |es| :: es[i] == Go(p, 0)
  }

  /** p's call of finish and its own file operations, and nothing else. */
  predicate OwnFinish(es: seq<Event>, p: Pid, t: Token, f: Option<Failure>) {
    es != [] && es[0] == CallFinish(p, t, f) && OwnSteps(es[1..], p)
  }

  lemma OwnFinishGoes(es: seq<Event>, fs: seq<Event>, p: Pid, t: Token, f: Option<Failure>)
    requires OwnFinish(es, p, t, f) && OwnSteps(fs, p)
    ensures OwnFinish(es + fs, p, t, f)
  {
    assert (es + fs)[1..] == es[1..] + fs;
  }

  lemma FinishReads(approved: set<string>, s: Machine, p: Pid, t: Token, f: Option<Failure>) returns (es: seq<Event>)
    requires p in s.procs && s.procs[p] == FinishLock(t, f) && s.lock.None? && ActiveHolds(s.disk, t)
    ensures RunnerLegal(approved, s, es) && OwnSteps(es, p)
    ensures RunnerRun(approved, s, es) == s.(procs := s.procs[p := GuardCreate(t, f)], lock := Some(p))
  {
    es := [];
    Extended(approved, s, es, Go(p, 0));
    es := es + [Go(p, 0)];
    Extended(approved, s, es, Go(p, 0));
    es := es + [Go(p, 0)];
  }

  lemma FinishFront(approved: set<string>, s: Machine, p: Pid, t: Token, f: Option<Failure>) returns (es: seq<Event>)
    requires p in s.procs && s.procs[p] == Holding(t) && t in s.granted && s.lock.None? && ActiveHolds(s.disk, t)
    ensures RunnerLegal(approved, s, es) && OwnFinish(es, p, t, f)
    ensures RunnerRun(approved, s, es) == s.(procs := s.procs[p := GuardCreate(t, f)], lock := Some(p))
  {
    Extended(approved, s, [], CallFinish(p, t, f));
    var call := [] + [CallFinish(p, t, f)];
    var read := FinishReads(approved, s.(procs := s.procs[p := FinishLock(t, f)]), p, t, f);
    Joined(approved, s, call, read);
    assert call[1..] == [];
    OwnFinishGoes(call, read, p, t, f);
    es := call + read;
  }

  /** The guard is created and written. */
  lemma GuardFront(approved: set<string>, s: Machine, p: Pid, t: Token, f: Option<Failure>) returns (es: seq<Event>)
    requires p in s.procs && s.procs[p] == GuardCreate(t, f) && Guard(f) !in View(s.disk)
    ensures RunnerLegal(approved, s, es) && OwnSteps(es, p)
    ensures var i := |s.disk.files|;
            RunnerRun(approved, s, es)
            == s.(procs := s.procs[p := GuardSyncFile(t, f, i)],
                  disk := WriteBody(Create(s.disk, Guard(f)), i, GuardContent(t, f)))
  {
    es := [];
    Extended(approved, s, es, Go(p, 0));
    es := es + [Go(p, 0)];
    Extended(approved, s, es, Go(p, 0));
    es := es + [Go(p, 0)];
  }

  /** The guard is made durable. */
  lemma GuardBack(approved: set<string>, s: Machine, p: Pid, t: Token, f: Option<Failure>, i: nat)
    returns (es: seq<Event>)
    requires p in s.procs && s.procs[p] == GuardSyncFile(t, f, i) && i < |s.disk.files|
    ensures RunnerLegal(approved, s, es) && OwnSteps(es, p)
    ensures RunnerRun(approved, s, es)
         == s.(procs := s.procs[p := DropActive(t, f)], disk := SyncDirectory(SyncBody(s.disk, i)),
               latched := s.latched || f.Some?)
  {
    es := [];
    Extended(approved, s, es, Go(p, 0));
    es := es + [Go(p, 0)];
    Extended(approved, s, es, Go(p, 0));
    es := es + [Go(p, 0)];
  }

  lemma WrittenFiles(d: Disk, n: Name, c: Content)
    ensures WriteBody(Create(d, n), |d.files|, c).files == d.files + [Body(c, false)]
  {
    var fs := d.files + [Body(Blank, false)];
    assert fs[|d.files| := Body(c, false)] == d.files + [Body(c, false)];
  }

  lemma BodyView(d: Disk, d': Disk)
    requires d'.durable == d.durable && d'.pending == d.pending
    ensures View(d') == View(d)
  {
  }

  lemma WrittenView(d: Disk, n: Name, c: Content)
    ensures View(WriteBody(Create(d, n), |d.files|, c)) == View(d)[n := |d.files|]
  {
    CreateFacts(d, n);
    BodyView(Create(d, n), WriteBody(Create(d, n), |d.files|, c));
  }

  lemma SyncedView(d: Disk, i: nat)
    requires i < |d.files|
    ensures View(SyncDirectory(SyncBody(d, i))) == View(d)
    ensures SyncDirectory(SyncBody(d, i)).files == d.files[i := d.files[i].(synced := true)]
  {
    SyncFacts(SyncBody(d, i));
  }

  /** The guard stands: the marker's content is durable under its name. */
  ghost predicate Guarded(d: Disk, d': Disk, n: Name, c: Content) {
    View(d') == View(d)[n := |d.files|] && d'.files == d.files + [Body(c, true)]
  }

  lemma FinishGuard(approved: set<string>, s: Machine, p: Pid, t: Token, f: Option<Failure>)
    returns (es: seq<Event>, d: Disk)
    requires p in s.procs && s.procs[p] == GuardCreate(t, f) && Guard(f) !in View(s.disk)
    ensures RunnerLegal(approved, s, es) && OwnSteps(es, p)
    ensures RunnerRun(approved, s, es)
         == s.(procs := s.procs[p := DropActive(t, f)], disk := d, latched := s.latched || f.Some?)
    ensures Guarded(s.disk, d, Guard(f), GuardContent(t, f))
  {
    var front := GuardFront(approved, s, p, t, f);
    var s1 := RunnerRun(approved, s, front);
    WrittenView(s.disk, Guard(f), GuardContent(t, f));
    WrittenFiles(s.disk, Guard(f), GuardContent(t, f));
    var back := GuardBack(approved, s1, p, t, f, |s.disk.files|);
    Joined(approved, s, front, back);
    SyncedView(s1.disk, |s.disk.files|);
    es, d := front + back, RunnerRun(approved, s1, back).disk;
  }

  lemma FinishDrop(approved: set<string>, s: Machine, p: Pid, t: Token, f: Option<Failure>)
    returns (es: seq<Event>, d: Disk)
    requires p in s.procs && s.procs[p] == DropActive(t, f) && s.lock == Some(p) && Active in View(s.disk)
    ensures RunnerLegal(approved, s, es) && OwnSteps(es, p)
    ensures View(d) == View(s.disk) - {Active} && d.files == s.disk.files
    ensures RunnerRun(approved, s, es)
            == if f.None? then s.(procs := s.procs[p := DropReleasing(t)], disk := d)
               else s.(procs := s.procs[p := Closed(t, f)], disk := d, lock := None)
  {
    es := [];
    Extended(approved, s, es, Go(p, 0));
    es := es + [Go(p, 0)];
    Extended(approved, s, es, Go(p, 0));
    es := es + [Go(p, 0)];
    d := SyncDirectory(Push(s.disk, Drop(Active)));
    PushFacts(s.disk, Drop(Active));
    SyncFacts(Push(s.disk, Drop(Active)));
  }

  lemma FinishEnd(approved: set<string>, s: Machine, p: Pid, t: Token) returns (es: seq<Event>, d: Disk)
    requires p in s.procs && s.procs[p] == DropReleasing(t) && s.lock == Some(p) && Releasing in View(s.disk)
    ensures RunnerLegal(approved, s, es) && OwnSteps(es, p)
    ensures View(d) == View(s.disk) - {Releasing}
    ensures RunnerRun(approved, s, es)
         == s.(procs := s.procs[p := Closed(t, None)], disk := d, lock := None, released := s.released + {t})
  {
    Extended(approved, s, [], Go(p, 0));
    es, d := [] + [Go(p, 0)], Push(s.disk, Drop(Releasing));
    PushFacts(s.disk, Drop(Releasing));
  }

  lemma Unblocked(d: Disk, guarded: Disk, freed: Disk, pc: Pc, c: Content)
    requires Found(d, pc) && Dropped(d, guarded, Releasing, c) && View(freed) == View(guarded) - {Releasing}
    ensures !Blocked(View(freed))
  {
  }

  /** Up to the durable guard. */
  lemma FinishGuarded(approved: set<string>, s: Machine, p: Pid, t: Token, f: Option<Failure>)
    returns (es: seq<Event>, d: Disk)
    requires p in s.procs && s.procs[p] == Holding(t) && t in s.granted && s.lock.None?
    requires Found(s.disk, s.procs[p])
    ensures RunnerLegal(approved, s, es) && OwnFinish(es, p, t, f)
    ensures RunnerRun(approved, s, es)
         == s.(procs := s.procs[p := DropActive(t, f)], disk := d, latched := s.latched || f.Some?, lock := Some(p))
    ensures Guarded(s.disk, d, Guard(f), GuardContent(t, f))
  {
    var front := FinishFront(approved, s, p, t, f);
    var guard;
    guard, d := FinishGuard(approved, RunnerRun(approved, s, front), p, t, f);
    Joined(approved, s, front, guard);
    OwnFinishGoes(front, guard, p, t, f);
    es := front + guard;
  }

  /** What a finish leaves after the durable removal of the active marker. */
  ghost predicate Dropped(d: Disk, d': Disk, n: Name, c: Content) {
    View(d') == View(d)[n := |d.files|] - {Active} && d'.files == d.files + [Body(c, true)]
  }

  lemma FinishDropped(approved: set<string>, s: Machine, p: Pid, t: Token, f: Option<Failure>)
    returns (es: seq<Event>, d: Disk)
    requires p in s.procs && s.procs[p] == Holding(t) && t in s.granted && s.lock.None?
    requires Found(s.disk, s.procs[p])
    ensures RunnerLegal(approved, s, es) && OwnFinish(es, p, t, f)
    ensures Dropped(s.disk, d, Guard(f), GuardContent(t, f))
    ensures RunnerRun(approved, s, es)
            == if f.None? then s.(procs := s.procs[p := DropReleasing(t)], disk := d, lock := Some(p))
               else s.(procs := s.procs[p := Closed(t, f)], disk := d, latched := true)
  {
    var front, g := FinishGuarded(approved, s, p, t, f);
    var drop;
    drop, d := FinishDrop(approved, RunnerRun(approved, s, front), p, t, f);
    Joined(approved, s, front, drop);
    OwnFinishGoes(front, drop, p, t, f);
    es := front + drop;
  }

  lemma CleanSteps(approved: set<string>, s: Machine, p: Pid, t: Token)
    returns (es: seq<Event>, guarded: Disk, freed: Disk)
    requires p in s.procs && s.procs[p] == Holding(t) && t in s.granted && s.lock.None?
    requires Found(s.disk, s.procs[p])
    ensures RunnerLegal(approved, s, es) && OwnFinish(es, p, t, None)
    ensures Dropped(s.disk, guarded, Releasing, Permit(t)) && View(freed) == View(guarded) - {Releasing}
    ensures RunnerRun(approved, s, es)
         == s.(procs := s.procs[p := Closed(t, None)], disk := freed, released := s.released + {t})
  {
    var f: Option<Failure> := None;
    var front;
    front, guarded := FinishDropped(approved, s, p, t, f);
    var s1 := s.(procs := s.procs[p := DropReleasing(t)], disk := guarded, lock := Some(p));
    var end;
    end, freed := FinishEnd(approved, s1, p, t);
    Joined(approved, s, front, end);
    OwnFinishGoes(front, end, p, t, f);
    es := front + end;
  }

  /** A holder that finds the lock free, meets no fault and has nothing to complain of can
      finish by its own steps alone, and leaves the directory free and unlocked. */
  lemma CleanFinishOf(approved: set<string>, s: Machine, p: Pid, t: Token) returns (es: seq<Event>)
    requires RunnerInv(s) && HoldInv(s) && p in s.procs && s.procs[p] == Holding(t) && s.lock.None?
    ensures RunnerLegal(approved, s, es) && OwnFinish(es, p, t, None)
    ensures var r := RunnerRun(approved, s, es);
            && r.procs == s.procs[p := Closed(t, None)] && r.released == s.released + {t}
            && !Blocked(View(r.disk)) && r.lock.None? && r.issued == s.issued && r.runs == s.runs
  {
    OwnedIsLive(s, p);
    var guarded, freed;
    es, guarded, freed := CleanSteps(approved, s, p, t);
    Unblocked(s.disk, guarded, freed, s.procs[p], Permit(t));
  }

  /** With a failure it ends with the open marker that tells the failure. */
  lemma FailedFinishOf(approved: set<string>, s: Machine, p: Pid, t: Token, f: Failure) returns (es: seq<Event>)
    requires RunnerInv(s) && HoldInv(s) && p in s.procs && s.procs[p] == Holding(t) && s.lock.None?
    ensures RunnerLegal(approved, s, es) && OwnFinish(es, p, t, Some(f))
    ensures var r := RunnerRun(approved, s, es);
            && r.procs == s.procs[p := Closed(t, Some(f))] && r.latched && r.released == s.released
            && Open in View(r.disk) && Active !in View(r.disk)
            && View(r.disk)[Open] < |r.disk.files| && r.disk.files[View(r.disk)[Open]] == Body(Reason(f), true)
  {
    OwnedIsLive(s, p);
    var d;
    es, d := FinishDropped(approved, s, p, t, Some(f));
  }

  /** After any history: the holder of a permit can release it cleanly, and then another
      claimed invocation can get its permit and start its run. */
  lemma ReleasedForTheNext(approved: set<string>, before: seq<Event>, p: Pid, t: Token, q: Pid, u: Token)
    returns (es: seq<Event>, fs: seq<Event>)
    requires RunnerLegal(approved, Init, before)
    requires var s := RunnerRun(approved, Init, before);
             && p in s.procs && s.procs[p] == Holding(t) && s.lock.None?
             && q in s.procs && s.procs[q].Claimed? && u !in s.issued
    ensures RunnerLegal(approved, Init, before + es) && OwnFinish(es, p, t, None)
    ensures var r := RunnerRun(approved, Init, before + es); p in r.procs && r.procs[p] == Closed(t, None)
    ensures RunnerLegal(approved, Init, before + es + fs)
    ensures RunnerRun(approved, Init, before + es + fs).runs == RunnerRun(approved, Init, before).runs + [q]
  {
    ReachableRunner(approved, before);
    ReachableHold(approved, before);
    var s := RunnerRun(approved, Init, before);
    es := CleanFinishOf(approved, s, p, t);
    Joined(approved, Init, before, es);
    var freed := RunnerRun(approved, Init, before + es);
    fs := ReserveHistoryOf(approved, freed, q, u);
    Joined(approved, Init, before + es, fs);
  }
}
