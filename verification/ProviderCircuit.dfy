/** The one-failure provider latch and the grant claims, as a machine of small
    steps: every file operation of every process is one step, any process may
    fail or die between two steps, and the machine may crash at any point. */
module ProviderCircuit {
  import opened Wrappers
  import opened CircuitDisk

  type Pid = nat

  /** Where a process stands. Fresh, Claimed, Holding, Closed and Denied are the
      states between two calls; the others are inside a call, before the named
      operation. */
  datatype Pc =
    | Fresh
    | Claimed(grant: string)
    | Holding(token: Token)
    | Closed(token: Token, failure: Option<Failure>)
    | Denied
      // consuming a grant
    | ClaimCreate(grant: string)
    | ClaimSyncFile(grant: string, inode: nat)
    | ClaimSyncDir(grant: string)
      // reserving the circuit
    | ReserveLock
    | ReserveCheck
    | ReserveCreate(token: Token)
    | ReserveWrite(token: Token, inode: nat)
    | ReserveSyncFile(token: Token, inode: nat)
    | ReserveSyncDir(token: Token)
      // finishing a permit
    | FinishLock(token: Token, failure: Option<Failure>)
    | FinishRead(token: Token, failure: Option<Failure>)
    | GuardCreate(token: Token, failure: Option<Failure>)
    | GuardWrite(token: Token, failure: Option<Failure>, inode: nat)
    | GuardSyncFile(token: Token, failure: Option<Failure>, inode: nat)
    | GuardSyncDir(token: Token, failure: Option<Failure>)
    | DropActive(token: Token, failure: Option<Failure>)
    | DropSync(token: Token, failure: Option<Failure>)
    | DropReleasing(token: Token)

  datatype Claim = Claim(pid: Pid, grant: string)

  /** The shared directory, the lock and the processes, with the history of
      issued tokens, returned permits, clean releases and successful claims. */
  datatype Machine = Machine(
    disk: Disk,
    lock: Option<Pid>,
    procs: map<Pid, Pc>,
    used: set<Pid>,
    issued: set<Token>,
    granted: set<Token>,
    released: set<Token>,
    latched: bool,
    runs: seq<Pid>,
    claims: seq<Claim>)

  datatype Event =
    | Spawn(pid: Pid)
    | CallClaim(pid: Pid, grant: string)
    | CallReserve(pid: Pid)
    | CallFinish(pid: Pid, token: Token, failure: Option<Failure>)
    | Go(pid: Pid, minted: Token)
    | Fault(pid: Pid)
    | Die(pid: Pid)
    | Crash(kept: seq<bool>, torn: set<nat>)

  const Init := Machine(Disk(map[], [], []), None, map[], {}, {}, {}, {}, false, [], [])

  predicate Resting(pc: Pc) {
    pc.Fresh? || pc.Claimed? || pc.Holding? || pc.Closed? || pc.Denied?
  }

  /** The process holds the lock: it is inside reserve or finish, past the lock. */
  predicate InLock(pc: Pc) {
    !Resting(pc) && !InClaim(pc) && !pc.ReserveLock? && !pc.FinishLock?
  }

  function Guard(failure: Option<Failure>): Name {
    if failure.None? then Releasing else Open
  }

  function GuardContent(token: Token, failure: Option<Failure>): Content {
    if failure.None? then Permit(token) else Reason(failure.value)
  }

  /** Continue at pc with the given disk. */
  function At(s: Machine, p: Pid, pc: Pc, disk: Disk): Machine {
    s.(procs := s.procs[p := pc], disk := disk)
  }

  /** Leave the call, giving the lock back when it was held. */
  function Leave(s: Machine, p: Pid, pc: Pc, disk: Disk): Machine {
    At(s, p, pc, disk).(lock := if s.lock == Some(p) then None else s.lock)
  }

  predicate Enabled(s: Machine, e: Event) {
    match e
    case Spawn(p) => p !in s.used
    case CallClaim(p, _) => p in s.procs && Resting(s.procs[p])
    case CallReserve(p) => p in s.procs && Resting(s.procs[p])
    case CallFinish(p, t, _) => p in s.procs && Resting(s.procs[p]) && t in s.granted
    case Go(p, minted) => p in s.procs && !Resting(s.procs[p]) && InodeOk(s.procs[p], s.disk)
                         && (s.procs[p].ReserveCheck? ==> minted !in s.issued)
    case Fault(p) => p in s.procs && !Resting(s.procs[p])
    case Die(p) => p in s.procs
    case Crash(kept, _) => |kept| == |s.disk.pending|
  }

  predicate InodeOk(pc: Pc, d: Disk) {
    match pc
    case ClaimSyncFile(_, i) => i < |d.files|
    case ReserveWrite(_, i) => i < |d.files|
    case ReserveSyncFile(_, i) => i < |d.files|
    case GuardWrite(_, _, i) => i < |d.files|
    case GuardSyncFile(_, _, i) => i < |d.files|
    case _ => true
  }

  function Step(s: Machine, e: Event): Machine
    requires Enabled(s, e)
  {
    match e
    case Spawn(p) => s.(procs := s.procs[p := Fresh], used := s.used + {p})
    case CallClaim(p, g) => At(s, p, ClaimCreate(g), s.disk)
    case CallReserve(p) => At(s, p, ReserveLock, s.disk)
    case CallFinish(p, t, f) => At(s, p, FinishLock(t, f), s.disk)
    case Go(p, minted) => Proceed(s, p, minted)
    case Fault(p) => Leave(s, p, Denied, s.disk)
    case Die(p) => s.(procs := s.procs - {p}, lock := if s.lock == Some(p) then None else s.lock)
    case Crash(kept, torn) => s.(disk := CrashDisk(s.disk, kept, torn), lock := None, procs := map[])
  }

  predicate InClaim(pc: Pc) {
    pc.ClaimCreate? || pc.ClaimSyncFile? || pc.ClaimSyncDir?
  }

  predicate InReserve(pc: Pc) {
    pc.ReserveLock? || pc.ReserveCheck? || pc.ReserveCreate? || pc.ReserveWrite?
    || pc.ReserveSyncFile? || pc.ReserveSyncDir?
  }

  /** The next file operation of p succeeds, or is refused by what it finds. */
  function Proceed(s: Machine, p: Pid, minted: Token): Machine
    requires p in s.procs && !Resting(s.procs[p]) && InodeOk(s.procs[p], s.disk)
  {
    if InClaim(s.procs[p]) then ProceedClaim(s, p)
    else if InReserve(s.procs[p]) then ProceedReserve(s, p, minted)
    else ProceedFinish(s, p)
  }

  function ProceedClaim(s: Machine, p: Pid): Machine
    requires p in s.procs && InClaim(s.procs[p]) && InodeOk(s.procs[p], s.disk)
  {
    var d := s.disk;
    match s.procs[p]
    case ClaimCreate(g) =>
      if Consumed(g) in View(d) then Leave(s, p, Denied, d)
      else At(s, p, ClaimSyncFile(g, |d.files|), Create(d, Consumed(g)))
    case ClaimSyncFile(g, i) => At(s, p, ClaimSyncDir(g), SyncBody(d, i))
    case ClaimSyncDir(g) =>
      At(s, p, Claimed(g), SyncDirectory(d)).(claims := s.claims + [Claim(p, g)])
  }

  function ProceedReserve(s: Machine, p: Pid, minted: Token): Machine
    requires p in s.procs && InReserve(s.procs[p]) && InodeOk(s.procs[p], s.disk)
  {
    var d := s.disk;
    match s.procs[p]
    case ReserveLock =>
      if s.lock.Some? then Leave(s, p, Denied, d)
      else At(s, p, ReserveCheck, d).(lock := Some(p))
    case ReserveCheck =>
      if Blocked(View(d)) then Leave(s, p, Denied, d)
      else At(s, p, ReserveCreate(minted), d).(issued := s.issued + {minted})
    case ReserveCreate(t) =>
      if Active in View(d) then Leave(s, p, Denied, d)
      else At(s, p, ReserveWrite(t, |d.files|), Create(d, Active))
    case ReserveWrite(t, i) => At(s, p, ReserveSyncFile(t, i), WriteBody(d, i, Permit(t)))
    case ReserveSyncFile(t, i) => At(s, p, ReserveSyncDir(t), SyncBody(d, i))
    case ReserveSyncDir(t) =>
      Leave(s, p, Holding(t), SyncDirectory(d)).(granted := s.granted + {t}, runs := s.runs + [p])
  }

  function ProceedFinish(s: Machine, p: Pid): Machine
    requires p in s.procs && !Resting(s.procs[p]) && !InClaim(s.procs[p]) && !InReserve(s.procs[p])
    requires InodeOk(s.procs[p], s.disk)
  {
    var d := s.disk;
    match s.procs[p]
    case FinishLock(t, f) =>
      if s.lock.Some? then Leave(s, p, Denied, d)
      else At(s, p, FinishRead(t, f), d).(lock := Some(p))
    case FinishRead(t, f) =>
      if !ActiveHolds(d, t) then Leave(s, p, Denied, d) else At(s, p, GuardCreate(t, f), d)
    case GuardCreate(t, f) =>
      if Guard(f) in View(d) then Leave(s, p, Denied, d)
      else At(s, p, GuardWrite(t, f, |d.files|), Create(d, Guard(f)))
    case GuardWrite(t, f, i) => At(s, p, GuardSyncFile(t, f, i), WriteBody(d, i, GuardContent(t, f)))
    case GuardSyncFile(t, f, i) => At(s, p, GuardSyncDir(t, f), SyncBody(d, i))
    case GuardSyncDir(t, f) =>
      At(s, p, DropActive(t, f), SyncDirectory(d)).(latched := s.latched || f.Some?)
    case DropActive(t, f) =>
      if Active !in View(d) then Leave(s, p, Denied, d)
      else At(s, p, DropSync(t, f), Push(d, Drop(Active)))
    case DropSync(t, f) =>
      if f.None? then At(s, p, DropReleasing(t), SyncDirectory(d))
      else Leave(s, p, Closed(t, f), SyncDirectory(d))
    case DropReleasing(t) =>
      if Releasing !in View(d) then Leave(s, p, Denied, d)
      else Leave(s, p, Closed(t, None), Push(d, Drop(Releasing))).(released := s.released + {t})
  }

  /** Every event is enabled when it happens. */
  predicate Legal(s: Machine, es: seq<Event>)
    decreases |es|
  {
    es == [] || (Enabled(s, es[0]) && Legal(Step(s, es[0]), es[1..]))
  }

  function Run(s: Machine, es: seq<Event>): Machine
    requires Legal(s, es)
    decreases |es|
  {
    if es == [] then s else Run(Step(s, es[0]), es[1..])
  }

  // ------------------------------------------------------------- invariant

  /** A file some reader of the active marker could see, now or after a crash. */
  ghost predicate LinkedActive(d: Disk, i: nat) {
    (Active in d.durable && d.durable[Active] == i) || Link(Active, i) in d.pending
  }

  ghost predicate Live(s: Machine, t: Token) {
    t in s.granted - s.released
  }

  ghost predicate LockInv(s: Machine) {
    && (s.lock.Some? ==> s.lock.value in s.procs && InLock(s.procs[s.lock.value]))
    && (forall p | p in s.procs && InLock(s.procs[p]) :: s.lock == Some(p))
  }

  ghost predicate DiskInv(d: Disk) {
    && (forall n | n in d.durable :: d.durable[n] < |d.files|)
    && (forall op | op in d.pending && op.Link? :: op.inode < |d.files|)
  }

  ghost predicate FileInv(s: Machine) {
    && DiskInv(s.disk)
    && (forall p | p in s.procs :: InodeOk(s.procs[p], s.disk))
  }

  ghost predicate TokenInv(s: Machine) {
    && s.released <= s.granted <= s.issued
    && (forall i: nat | LinkedActive(s.disk, i) && i < |s.disk.files| && s.disk.files[i].content.Permit? ::
          s.disk.files[i].content.token !in s.released)
  }

  /** What holds of the shared state while p stands at pc. */
  ghost predicate PcInv(s: Machine, pc: Pc) {
    var view := View(s.disk);
    match pc
    case ReserveCreate(t) => !s.latched && s.granted <= s.released && t in s.issued && t !in s.granted
    case ReserveWrite(t, i) =>
      !s.latched && s.granted <= s.released && t in s.issued && t !in s.granted && Active in view && view[Active] == i
    case ReserveSyncFile(t, i) =>
      !s.latched && s.granted <= s.released && t in s.issued && t !in s.granted && Active in view && view[Active] == i
      && i < |s.disk.files| && s.disk.files[i].content == Permit(t)
    case ReserveSyncDir(t) =>
      !s.latched && s.granted <= s.released && t in s.issued && t !in s.granted && Active in view
      && view[Active] < |s.disk.files| && s.disk.files[view[Active]] == Body(Permit(t), true)
    case FinishLock(t, _) => t in s.granted
    case FinishRead(t, _) => t in s.granted
    case GuardCreate(t, _) => Live(s, t)
    case GuardWrite(t, f, i) => Live(s, t) && Guard(f) in view && !LinkedActive(s.disk, i)
    case GuardSyncFile(t, f, i) => Live(s, t) && Guard(f) in view && !LinkedActive(s.disk, i)
    case GuardSyncDir(t, f) => Live(s, t) && Guard(f) in view
    case DropActive(t, f) => Live(s, t) && Pinned(s.disk, Guard(f))
    case DropSync(t, f) => Live(s, t) && Pinned(s.disk, Guard(f)) && Active !in view
    case DropReleasing(t) => Live(s, t) && Pinned(s.disk, Releasing) && Gone(s.disk, Active)
    case _ => true
  }

  ghost predicate LatchInv(s: Machine) {
    && (forall t, u | t in s.granted - s.released && u in s.granted - s.released :: t == u)
    && (forall t | t in s.granted - s.released :: SafelyBlocked(s.disk) && TokenSafe(s.disk, t))
    && (s.latched ==> Pinned(s.disk, Open))
    && (forall p | p in s.procs :: PcInv(s, s.procs[p]))
  }

  /** The active marker of a live permit, wherever it still exists, carries its token. */
  ghost predicate TokenSafe(d: Disk, t: Token) {
    && (forall i: nat :: Link(Active, i) !in d.pending)
    && (Active in d.durable ==>
          d.durable[Active] < |d.files| && d.files[d.durable[Active]] == Body(Permit(t), true))
  }

  /** A grant is claimed by at most one process, and its claim file stays. */
  ghost predicate ClaimInv(s: Machine) {
    && (forall i, j | 0 <= i < j < |s.claims| :: s.claims[i].grant != s.claims[j].grant)
    && (forall c | c in s.claims :: Pinned(s.disk, Consumed(c.grant)))
    && (forall p | p in s.procs && Claiming(s.procs[p]) ::
          Consumed(s.procs[p].grant) in View(s.disk) && forall c | c in s.claims :: c.grant != s.procs[p].grant)
    && (forall p, q | p in s.procs && q in s.procs && Claiming(s.procs[p]) && Claiming(s.procs[q]) && p != q ::
          s.procs[p].grant != s.procs[q].grant)
  }

  predicate Claiming(pc: Pc) {
    pc.ClaimSyncFile? || pc.ClaimSyncDir?
  }

  ghost predicate Inv(s: Machine) {
    LockInv(s) && FileInv(s) && TokenInv(s) && LatchInv(s) && ClaimInv(s) && s.procs.Keys <= s.used
  }

  // ------------------------------------------------------------- preservation

  /** A change of the directory that leaves the three markers alone. */
  ghost predicate MarkersKept(d: Disk, d': Disk) {
    && |d.files| <= |d'.files|
    && (forall i | 0 <= i < |d.files| :: d'.files[i].content == d.files[i].content
                                         && (d.files[i].synced ==> d'.files[i].synced))
    && (forall n: Name | !n.Consumed? :: (n in View(d') <==> n in View(d))
                                         && (n in View(d) ==> View(d')[n] == View(d)[n])
                                         && (Pinned(d, n) ==> Pinned(d', n))
                                         && (Gone(d, n) ==> Gone(d', n)))
    && (forall i: nat | LinkedActive(d', i) :: LinkedActive(d, i))
    && (forall i: nat | Link(Active, i) in d'.pending :: Link(Active, i) in d.pending)
  }

  ghost predicate ClaimsKept(d: Disk, d': Disk) {
    && (forall g :: Pinned(d, Consumed(g)) ==> Pinned(d', Consumed(g)))
    && (forall g :: Consumed(g) in View(d) ==> Consumed(g) in View(d'))
  }

  /** p alone moved; the lock stayed, or p took it, or p gave it back. */
  ghost predicate Moved(s: Machine, s': Machine, p: Pid) {
    && p in s.procs && p in s'.procs
    && s'.procs == s.procs[p := s'.procs[p]]
    && s'.used == s.used
    && match (InLock(s.procs[p]), InLock(s'.procs[p]))
       case (true, false) => s'.lock == None
       case (false, true) => s.lock == None && s'.lock == Some(p)
       case _ => s'.lock == s.lock
  }

  lemma FrameLock(s: Machine, s': Machine, p: Pid)
    requires LockInv(s) && Moved(s, s', p)
    ensures LockInv(s')
  {
  }

  lemma FrameFiles(s: Machine, s': Machine, p: Pid)
    requires FileInv(s) && Moved(s, s', p) && |s.disk.files| <= |s'.disk.files|
    requires DiskInv(s'.disk) && InodeOk(s'.procs[p], s'.disk)
    ensures FileInv(s')
  {
  }

  lemma FrameLatch(s: Machine, s': Machine, p: Pid)
    requires Inv(s) && Moved(s, s', p) && MarkersKept(s.disk, s'.disk) && PcInv(s', s'.procs[p])
    requires s'.granted == s.granted && s'.released == s.released && s'.latched == s.latched
    requires s.issued <= s'.issued
    ensures TokenInv(s') && LatchInv(s')
  {
    forall q | q in s'.procs && q != p ensures PcInv(s', s'.procs[q]) {
      assert PcInv(s, s.procs[q]);
    }
    if Active in s'.disk.durable {
      assert LinkedActive(s'.disk, s'.disk.durable[Active]);
    }
  }

  /** A step of p that neither claims nor loses a claim. */
  lemma FrameClaims(s: Machine, s': Machine, p: Pid)
    requires ClaimInv(s) && Moved(s, s', p) && s'.claims == s.claims
    requires Claiming(s'.procs[p]) ==> Claiming(s.procs[p]) && s'.procs[p].grant == s.procs[p].grant
    requires ClaimsKept(s.disk, s'.disk)
    ensures ClaimInv(s')
  {
    forall c | c in s'.claims ensures Pinned(s'.disk, Consumed(c.grant)) {
      assert Pinned(s.disk, Consumed(c.grant));
    }
  }

  /** Steps that only move a process: no file is touched. */
  lemma QuietInv(s: Machine, s': Machine, p: Pid)
    requires Inv(s) && Moved(s, s', p) && s'.disk == s.disk && !Claiming(s'.procs[p])
    requires s'.granted == s.granted && s'.released == s.released && s'.latched == s.latched
    requires s'.claims == s.claims && s.issued <= s'.issued
    requires PcInv(s', s'.procs[p]) && InodeOk(s'.procs[p], s'.disk)
    ensures Inv(s')
  {
    FrameLock(s, s', p);
    FrameFiles(s, s', p);
    FrameLatch(s, s', p);
    FrameClaims(s, s', p);
  }

  /** A call that raises leaves every file as it was and gives the lock back. */
  lemma RefusedInv(s: Machine, p: Pid)
    requires Inv(s) && p in s.procs && !Resting(s.procs[p])
    ensures Inv(Leave(s, p, Denied, s.disk))
  {
    QuietInv(s, Leave(s, p, Denied, s.disk), p);
  }

  lemma CreateClaimKept(d: Disk, g: string)
    requires Consumed(g) !in View(d)
    ensures MarkersKept(d, Create(d, Consumed(g)))
  {
    CreateFacts(d, Consumed(g));
  }

  lemma SyncKept(d: Disk)
    requires DiskInv(d)
    ensures MarkersKept(d, SyncDirectory(d)) && ClaimsKept(d, SyncDirectory(d))
    ensures DiskInv(SyncDirectory(d))
  {
    SyncFacts(d);
    ViewOrigin(d.durable, d.pending, Active);
    forall n
      ensures Pinned(d, n) ==> n in View(d)
      ensures Gone(d, n) ==> n !in View(d)
      ensures n in View(d) ==> View(d)[n] < |d.files|
    {
      PinnedFacts(d, n);
      ViewOrigin(d.durable, d.pending, n);
    }
  }

  lemma ClaimCreateInv(s: Machine, e: Event)
    requires Inv(s) && Enabled(s, e) && e.Go? && s.procs[e.pid].ClaimCreate?
    ensures Inv(Step(s, e))
  {
    var s' := Step(s, e);
    var g := s.procs[e.pid].grant;
    if Consumed(g) in View(s.disk) {
      RefusedInv(s, e.pid);
    } else {
      CreateClaimKept(s.disk, g);
      CreateFacts(s.disk, Consumed(g));
      PinnedFacts(s.disk, Consumed(g));
      FrameLock(s, s', e.pid);
      FrameFiles(s, s', e.pid);
      FrameLatch(s, s', e.pid);
      NewClaimInv(s, s', e.pid);
    }
  }

  lemma NewClaimInv(s: Machine, s': Machine, p: Pid)
    requires ClaimInv(s) && Moved(s, s', p) && s'.claims == s.claims && Claiming(s'.procs[p])
    requires var g := s'.procs[p].grant;
             !Pinned(s.disk, Consumed(g)) && Consumed(g) !in View(s.disk) && Consumed(g) in View(s'.disk)
    requires forall n | n != Consumed(s'.procs[p].grant) :: Pinned(s.disk, n) ==> Pinned(s'.disk, n)
    requires forall n | n in View(s.disk) :: n in View(s'.disk)
    ensures ClaimInv(s')
  {
    forall c | c in s'.claims ensures Pinned(s'.disk, Consumed(c.grant)) && c.grant != s'.procs[p].grant {
      assert Pinned(s.disk, Consumed(c.grant));
    }
  }

  lemma ClaimSyncFileInv(s: Machine, e: Event)
    requires Inv(s) && Enabled(s, e) && e.Go? && s.procs[e.pid].ClaimSyncFile?
    ensures Inv(Step(s, e))
  {
    var s' := Step(s, e);
    FrameLock(s, s', e.pid);
    FrameFiles(s, s', e.pid);
    FrameLatch(s, s', e.pid);
    FrameClaims(s, s', e.pid);
  }

  lemma ClaimSyncDirInv(s: Machine, e: Event)
    requires Inv(s) && Enabled(s, e) && e.Go? && s.procs[e.pid].ClaimSyncDir?
    ensures Inv(Step(s, e))
  {
    var s' := Step(s, e);
    SyncKept(s.disk);
    FrameLock(s, s', e.pid);
    FrameFiles(s, s', e.pid);
    FrameLatch(s, s', e.pid);
    ClaimDoneInv(s, s', e.pid);
  }

  lemma ClaimDoneInv(s: Machine, s': Machine, p: Pid)
    requires ClaimInv(s) && Moved(s, s', p) && s'.disk == SyncDirectory(s.disk)
    requires s.procs[p].ClaimSyncDir? && !Claiming(s'.procs[p])
    requires s'.claims == s.claims + [Claim(p, s.procs[p].grant)]
    requires ClaimsKept(s.disk, s'.disk)
    ensures ClaimInv(s')
  {
    SyncFacts(s.disk);
    forall c | c in s'.claims ensures Pinned(s'.disk, Consumed(c.grant)) {
      if c in s.claims { assert Pinned(s.disk, Consumed(c.grant)); }
    }
  }

  /** What the view shows of pinned entries, of absent ones and of the files. */
  lemma ViewFacts(d: Disk)
    ensures forall n :: Pinned(d, n) ==> n in View(d)
    ensures forall n :: Gone(d, n) ==> n !in View(d)
    ensures Active in View(d) ==> LinkedActive(d, View(d)[Active])
  {
    forall n
      ensures Pinned(d, n) ==> n in View(d)
      ensures Gone(d, n) ==> n !in View(d)
    {
      PinnedFacts(d, n);
    }
    ViewOrigin(d.durable, d.pending, Active);
  }

  /** Only the lock holder relies on the markers, so it may change them. */
  lemma FrameHolder(s: Machine, s': Machine, p: Pid)
    requires Inv(s) && Moved(s, s', p) && InLock(s.procs[p])
    requires s.granted <= s'.granted && s'.claims == s.claims && !Claiming(s'.procs[p])
    requires |s.disk.files| <= |s'.disk.files| && DiskInv(s'.disk) && InodeOk(s'.procs[p], s'.disk)
    requires ClaimsKept(s.disk, s'.disk)
    requires PcInv(s', s'.procs[p])
    ensures LockInv(s') && FileInv(s') && ClaimInv(s')
    ensures forall q | q in s'.procs :: PcInv(s', s'.procs[q])
  {
    FrameLock(s, s', p);
    FrameFiles(s, s', p);
    FrameClaims(s, s', p);
    forall q | q in s'.procs && q != p ensures PcInv(s', s'.procs[q]) {
      assert PcInv(s, s.procs[q]) && !InLock(s.procs[q]);
    }
  }

  /** A permit that is out shows in the view, so an unblocked view has none. */
  lemma LivePermitBlocks(s: Machine)
    requires Inv(s)
    ensures !Blocked(View(s.disk)) ==> s.granted <= s.released
  {
    if !(s.granted <= s.released) {
      var t :| t in s.granted && t !in s.released;
      assert t in s.granted - s.released && SafelyBlocked(s.disk);
      ViewFacts(s.disk);
    }
  }

  lemma ReserveLockInv(s: Machine, e: Event)
    requires Inv(s) && Enabled(s, e) && e.Go? && s.procs[e.pid].ReserveLock?
    ensures Inv(Step(s, e))
  {
    QuietInv(s, Step(s, e), e.pid);
  }

  lemma ReserveCheckInv(s: Machine, e: Event)
    requires Inv(s) && Enabled(s, e) && e.Go? && s.procs[e.pid].ReserveCheck?
    ensures Inv(Step(s, e))
  {
    if Blocked(View(s.disk)) {
      RefusedInv(s, e.pid);
    } else {
      LivePermitBlocks(s);
      PinnedFacts(s.disk, Open);
      QuietInv(s, Step(s, e), e.pid);
    }
  }

  lemma ReserveCreateInv(s: Machine, e: Event)
    requires Inv(s) && Enabled(s, e) && e.Go? && s.procs[e.pid].ReserveCreate?
    ensures Inv(Step(s, e))
  {
    var s' := Step(s, e);
    if Active in View(s.disk) {
      RefusedInv(s, e.pid);
    } else {
      assert PcInv(s, s.procs[e.pid]);
      CreateFacts(s.disk, Active);
      FrameHolder(s, s', e.pid);
      forall i: nat | LinkedActive(s'.disk, i) ensures LinkedActive(s.disk, i) || i == |s.disk.files| {}
    }
  }

  lemma ReserveBodyInv(s: Machine, e: Event)
    requires Inv(s) && Enabled(s, e) && e.Go?
    requires s.procs[e.pid].ReserveWrite? || s.procs[e.pid].ReserveSyncFile?
    ensures Inv(Step(s, e))
  {
    var s' := Step(s, e);
    assert PcInv(s, s.procs[e.pid]);
    FrameHolder(s, s', e.pid);
    assert forall n :: Pinned(s'.disk, n) == Pinned(s.disk, n);
    forall i: nat | LinkedActive(s'.disk, i) ensures LinkedActive(s.disk, i) {}
  }

  lemma ReserveDoneInv(s: Machine, e: Event)
    requires Inv(s) && Enabled(s, e) && e.Go? && s.procs[e.pid].ReserveSyncDir?
    ensures Inv(Step(s, e))
  {
    var s' := Step(s, e);
    assert PcInv(s, s.procs[e.pid]);
    SyncKept(s.disk);
    SyncFacts(s.disk);
    FrameHolder(s, s', e.pid);
  }

  lemma FinishLockInv(s: Machine, e: Event)
    requires Inv(s) && Enabled(s, e) && e.Go? && s.procs[e.pid].FinishLock?
    ensures Inv(Step(s, e))
  {
    assert PcInv(s, s.procs[e.pid]);
    QuietInv(s, Step(s, e), e.pid);
  }

  lemma FinishReadInv(s: Machine, e: Event)
    requires Inv(s) && Enabled(s, e) && e.Go? && s.procs[e.pid].FinishRead?
    ensures Inv(Step(s, e))
  {
    ActiveTokenIsLive(s, s.procs[e.pid].token);
    assert PcInv(s, s.procs[e.pid]);
    QuietInv(s, Step(s, e), e.pid);
  }

  /** The token of the active marker was never cleanly released. */
  lemma ActiveTokenIsLive(s: Machine, t: Token)
    requires Inv(s)
    ensures ActiveHolds(s.disk, t) ==> t !in s.released
  {
    ViewFacts(s.disk);
    if ActiveHolds(s.disk, t) {
      assert LinkedActive(s.disk, View(s.disk)[Active]);
    }
  }

  /** Linking or unlinking a marker leaves the claim files alone. */
  lemma MarkerClaimsKept(d: Disk, op: DirOp)
    requires !op.name.Consumed?
    ensures ClaimsKept(d, Push(d, op))
  {
    PushFacts(d, op);
  }

  /** Only p and the directory changed. */
  ghost predicate OnlyDisk(s: Machine, s': Machine, p: Pid, pc: Pc, d: Disk) {
    s' == s.(procs := s.procs[p := pc], disk := d)
  }

  lemma GuardCreated(s: Machine, s': Machine, p: Pid)
    requires Inv(s) && p in s.procs && s.procs[p].GuardCreate?
    requires var pc := s.procs[p];
             && Guard(pc.failure) !in View(s.disk)
             && OnlyDisk(s, s', p, GuardWrite(pc.token, pc.failure, |s.disk.files|), Create(s.disk, Guard(pc.failure)))
    ensures Inv(s')
  {
    var guard := Guard(s.procs[p].failure);
    assert PcInv(s, s.procs[p]);
    PinnedFacts(s.disk, guard);
    MarkerClaimsKept(s.disk, Link(guard, |s.disk.files|));
    CreateFacts(s.disk, guard);
    FrameHolder(s, s', p);
    forall i: nat | LinkedActive(s'.disk, i) ensures LinkedActive(s.disk, i) && i < |s.disk.files| {}
  }

  lemma GuardCreateInv(s: Machine, e: Event)
    requires Inv(s) && Enabled(s, e) && e.Go? && s.procs[e.pid].GuardCreate?
    ensures Inv(Step(s, e))
  {
    if Guard(s.procs[e.pid].failure) in View(s.disk) {
      RefusedInv(s, e.pid);
    } else {
      GuardCreated(s, Step(s, e), e.pid);
    }
  }

  lemma GuardWriteInv(s: Machine, e: Event)
    requires Inv(s) && Enabled(s, e) && e.Go? && s.procs[e.pid].GuardWrite?
    ensures Inv(Step(s, e))
  {
    var s' := Step(s, e);
    assert PcInv(s, s.procs[e.pid]);
    forall i: nat ensures LinkedActive(s'.disk, i) == LinkedActive(s.disk, i) {}
    assert forall n :: Pinned(s'.disk, n) == Pinned(s.disk, n);
    if Active in s.disk.durable { assert LinkedActive(s.disk, s.disk.durable[Active]); }
    FrameHolder(s, s', e.pid);
  }

  lemma GuardSyncFileInv(s: Machine, e: Event)
    requires Inv(s) && Enabled(s, e) && e.Go? && s.procs[e.pid].GuardSyncFile?
    ensures Inv(Step(s, e))
  {
    var s' := Step(s, e);
    assert PcInv(s, s.procs[e.pid]);
    FrameLock(s, s', e.pid);
    FrameFiles(s, s', e.pid);
    FrameLatch(s, s', e.pid);
    FrameClaims(s, s', e.pid);
  }

  lemma GuardDoneHolder(s: Machine, e: Event)
    requires Inv(s) && Enabled(s, e) && e.Go? && s.procs[e.pid].GuardSyncDir?
    ensures var s' := Step(s, e);
            LockInv(s') && FileInv(s') && ClaimInv(s') && forall q | q in s'.procs :: PcInv(s', s'.procs[q])
  {
    assert PcInv(s, s.procs[e.pid]);
    SyncKept(s.disk);
    SyncFacts(s.disk);
    FrameHolder(s, Step(s, e), e.pid);
  }

  lemma GuardDoneTokens(s: Machine, e: Event)
    requires Inv(s) && Enabled(s, e) && e.Go? && s.procs[e.pid].GuardSyncDir?
    ensures TokenInv(Step(s, e))
  {
    SyncKept(s.disk);
  }

  lemma GuardDoneLatch(s: Machine, e: Event)
    requires Inv(s) && Enabled(s, e) && e.Go? && s.procs[e.pid].GuardSyncDir?
    requires var s' := Step(s, e); forall q | q in s'.procs :: PcInv(s', s'.procs[q])
    ensures LatchInv(Step(s, e))
  {
    var s' := Step(s, e);
    assert PcInv(s, s.procs[e.pid]);
    SyncKept(s.disk);
    SyncFacts(s.disk);
    if Active in s'.disk.durable { assert LinkedActive(s'.disk, s'.disk.durable[Active]); }
  }

  lemma GuardDoneInv(s: Machine, e: Event)
    requires Inv(s) && Enabled(s, e) && e.Go? && s.procs[e.pid].GuardSyncDir?
    ensures Inv(Step(s, e))
  {
    GuardDoneHolder(s, e);
    GuardDoneTokens(s, e);
    GuardDoneLatch(s, e);
  }

  lemma DropActiveDisk(d: Disk, d': Disk, t: Token)
    requires DiskInv(d) && d' == Push(d, Drop(Active)) && TokenSafe(d, t)
    ensures DiskInv(d') && TokenSafe(d', t)
    ensures forall i: nat | LinkedActive(d', i) :: LinkedActive(d, i)
  {
    assert forall op :: op in d'.pending <==> op in d.pending || op == Drop(Active);
  }

  lemma ActiveDropped(s: Machine, s': Machine, p: Pid)
    requires Inv(s) && p in s.procs && s.procs[p].DropActive?
    requires var pc := s.procs[p];
             OnlyDisk(s, s', p, DropSync(pc.token, pc.failure), Push(s.disk, Drop(Active)))
    ensures Inv(s')
  {
    var pc := s.procs[p];
    assert PcInv(s, pc);
    assert s.granted - s.released == {pc.token};
    DropActiveDisk(s.disk, s'.disk, pc.token);
    MarkerClaimsKept(s.disk, Drop(Active));
    PushFacts(s.disk, Drop(Active));
    assert Pinned(s'.disk, Guard(pc.failure));
    assert s.latched ==> Pinned(s'.disk, Open);
    FrameHolder(s, s', p);
  }

  lemma DropActiveInv(s: Machine, e: Event)
    requires Inv(s) && Enabled(s, e) && e.Go? && s.procs[e.pid].DropActive?
    ensures Inv(Step(s, e))
  {
    if Active !in View(s.disk) {
      RefusedInv(s, e.pid);
    } else {
      ActiveDropped(s, Step(s, e), e.pid);
    }
  }

  lemma DropSyncHolder(s: Machine, e: Event)
    requires Inv(s) && Enabled(s, e) && e.Go? && s.procs[e.pid].DropSync?
    ensures var s' := Step(s, e);
            LockInv(s') && FileInv(s') && ClaimInv(s') && forall q | q in s'.procs :: PcInv(s', s'.procs[q])
  {
    assert PcInv(s, s.procs[e.pid]);
    SyncKept(s.disk);
    SyncFacts(s.disk);
    FrameHolder(s, Step(s, e), e.pid);
  }

  lemma DropSyncTokens(s: Machine, e: Event)
    requires Inv(s) && Enabled(s, e) && e.Go? && s.procs[e.pid].DropSync?
    ensures TokenInv(Step(s, e))
  {
    SyncKept(s.disk);
  }

  lemma DropSyncLatch(s: Machine, e: Event)
    requires Inv(s) && Enabled(s, e) && e.Go? && s.procs[e.pid].DropSync?
    requires var s' := Step(s, e); forall q | q in s'.procs :: PcInv(s', s'.procs[q])
    ensures LatchInv(Step(s, e))
  {
    assert PcInv(s, s.procs[e.pid]);
    SyncKept(s.disk);
    SyncFacts(s.disk);
  }

  lemma DropSyncInv(s: Machine, e: Event)
    requires Inv(s) && Enabled(s, e) && e.Go? && s.procs[e.pid].DropSync?
    ensures Inv(Step(s, e))
  {
    DropSyncHolder(s, e);
    DropSyncTokens(s, e);
    DropSyncLatch(s, e);
  }

  lemma DropReleasingInv(s: Machine, e: Event)
    requires Inv(s) && Enabled(s, e) && e.Go? && s.procs[e.pid].DropReleasing?
    ensures Inv(Step(s, e))
  {
    var s' := Step(s, e);
    if Releasing !in View(s.disk) {
      RefusedInv(s, e.pid);
    } else {
      assert PcInv(s, s.procs[e.pid]);
      PushFacts(s.disk, Drop(Releasing));
      FrameHolder(s, s', e.pid);
      assert s.granted - s.released == {s.procs[e.pid].token};
      assert Gone(s'.disk, Active);
    }
  }

  lemma StartInv(s: Machine, e: Event)
    requires Inv(s) && Enabled(s, e)
    requires e.CallClaim? || e.CallReserve? || e.CallFinish? || e.Fault?
    ensures Inv(Step(s, e))
  {
    QuietInv(s, Step(s, e), e.pid);
  }

  /** Processes appear or vanish; the lock of one that vanished is free. */
  lemma MembersInv(s: Machine, s': Machine)
    requires Inv(s) && s' == s.(procs := s'.procs, used := s'.used, lock := s'.lock)
    requires s'.procs.Keys <= s'.used
    requires forall p | p in s'.procs :: (p in s.procs && s'.procs[p] == s.procs[p]) || s'.procs[p] == Fresh
    requires s'.lock == if s.lock.Some? && s.lock.value !in s'.procs then None else s.lock
    requires s.lock.Some? && s.lock.value in s'.procs ==> s'.procs[s.lock.value] == s.procs[s.lock.value]
    ensures Inv(s')
  {
    forall q | q in s'.procs ensures PcInv(s', s'.procs[q]) {
      if s'.procs[q] != Fresh { assert PcInv(s, s.procs[q]); }
    }
  }

  lemma SpawnDieInv(s: Machine, e: Event)
    requires Inv(s) && Enabled(s, e) && (e.Spawn? || e.Die?)
    ensures Inv(Step(s, e))
  {
    MembersInv(s, Step(s, e));
  }

  lemma CrashInv(s: Machine, e: Event)
    requires Inv(s) && Enabled(s, e) && e.Crash?
    ensures Inv(Step(s, e))
  {
    var s' := Step(s, e);
    forall n
      ensures Pinned(s.disk, n) ==> Pinned(s'.disk, n) && s'.disk.durable[n] == s.disk.durable[n]
      ensures n in s'.disk.durable ==> s'.disk.durable[n] < |s'.disk.files|
    {
      PinnedFacts(s.disk, n);
      KeptOrigin(s.disk.durable, s.disk.pending, e.kept, n);
    }
    KeptOrigin(s.disk.durable, s.disk.pending, e.kept, Active);
    forall i: nat | LinkedActive(s'.disk, i) ensures LinkedActive(s.disk, i) {}
  }

  lemma GoInv(s: Machine, e: Event)
    requires Inv(s) && Enabled(s, e) && e.Go?
    ensures Inv(Step(s, e))
  {
    match s.procs[e.pid]
    case ClaimCreate(_) => ClaimCreateInv(s, e);
    case ClaimSyncFile(_, _) => ClaimSyncFileInv(s, e);
    case ClaimSyncDir(_) => ClaimSyncDirInv(s, e);
    case ReserveLock => ReserveLockInv(s, e);
    case ReserveCheck => ReserveCheckInv(s, e);
    case ReserveCreate(_) => ReserveCreateInv(s, e);
    case ReserveWrite(_, _) => ReserveBodyInv(s, e);
    case ReserveSyncFile(_, _) => ReserveBodyInv(s, e);
    case ReserveSyncDir(_) => ReserveDoneInv(s, e);
    case FinishLock(_, _) => FinishLockInv(s, e);
    case FinishRead(_, _) => FinishReadInv(s, e);
    case GuardCreate(_, _) => GuardCreateInv(s, e);
    case GuardWrite(_, _, _) => GuardWriteInv(s, e);
    case GuardSyncFile(_, _, _) => GuardSyncFileInv(s, e);
    case GuardSyncDir(_, _) => GuardDoneInv(s, e);
    case DropActive(_, _) => DropActiveInv(s, e);
    case DropSync(_, _) => DropSyncInv(s, e);
    case DropReleasing(_) => DropReleasingInv(s, e);
    case _ =>
  }

  /** Every step of every process, every fault and every crash keeps the invariant. */
  lemma StepInv(s: Machine, e: Event)
    requires Inv(s) && Enabled(s, e)
    ensures Inv(Step(s, e))
  {
    match e
    case Spawn(_) => SpawnDieInv(s, e);
    case CallClaim(_, _) => StartInv(s, e);
    case CallReserve(_) => StartInv(s, e);
    case CallFinish(_, _, _) => StartInv(s, e);
    case Go(_, _) => GoInv(s, e);
    case Fault(_) => StartInv(s, e);
    case Die(_) => SpawnDieInv(s, e);
    case Crash(_, _) => CrashInv(s, e);
  }

  // ------------------------------------------------------------- whole runs

  lemma InitInv()
    ensures Inv(Init)
  {
  }

  lemma {:induction false} RunInv(s: Machine, es: seq<Event>)
    requires Inv(s) && Legal(s, es)
    ensures Inv(Run(s, es))
    decreases |es|
  {
    if es != [] {
      StepInv(s, es[0]);
      RunInv(Step(s, es[0]), es[1..]);
    }
  }

  /** Whatever happened, the invariant holds of the machine. */
  lemma ReachableInv(es: seq<Event>)
    requires Legal(Init, es)
    ensures Inv(Run(Init, es))
  {
    InitInv();
    RunInv(Init, es);
  }

  /** While a permit is out, or once a failure is latched, no step hands out a permit. */
  lemma NoNewPermit(s: Machine, e: Event)
    requires Inv(s) && Enabled(s, e)
    requires s.latched || s.granted - s.released != {}
    ensures Step(s, e).granted == s.granted && Step(s, e).runs == s.runs
  {
    if e.Go? {
      assert PcInv(s, s.procs[e.pid]);
    }
  }

  lemma HistoryGrows(s: Machine, e: Event)
    requires Enabled(s, e)
    ensures s.granted <= Step(s, e).granted && s.released <= Step(s, e).released
    ensures s.latched ==> Step(s, e).latched
  {
    if e.Go? {
      if InClaim(s.procs[e.pid]) {
      } else if InReserve(s.procs[e.pid]) {
      } else {
      }
    }
  }

  lemma {:induction false} RunHistoryGrows(s: Machine, es: seq<Event>)
    requires Legal(s, es)
    ensures s.granted <= Run(s, es).granted && s.released <= Run(s, es).released
    ensures s.latched ==> Run(s, es).latched
    decreases |es|
  {
    if es != [] {
      HistoryGrows(s, es[0]);
      RunHistoryGrows(Step(s, es[0]), es[1..]);
    }
  }

  /** Crash safety of the latch: between the return of a permit and the last
      unlink of its clean finish, some marker exists, in memory and in whatever a
      crash would leave, and no other permit was handed out meanwhile. */
  lemma {:induction false} PermitHeld(s: Machine, es: seq<Event>, t: Token)
    requires Inv(s) && Legal(s, es)
    requires t in s.granted && t !in Run(s, es).released
    ensures Blocked(View(Run(s, es).disk))
    ensures forall kept: seq<bool> | |kept| == |Run(s, es).disk.pending| ::
              Blocked(Survivors(Run(s, es).disk, kept))
    ensures Run(s, es).granted == s.granted && Run(s, es).runs == s.runs
    decreases |es|
  {
    RunHistoryGrows(s, es);
    assert t in s.granted - s.released;
    if es == [] {
      assert SafelyBlocked(s.disk);
      forall n { PinnedFacts(s.disk, n); }
    } else {
      NoNewPermit(s, es[0]);
      StepInv(s, es[0]);
      PermitHeld(Step(s, es[0]), es[1..], t);
    }
  }

  /** One failure, made durable, blocks for ever: across faults, deaths and crashes. */
  lemma {:induction false} LatchedForever(s: Machine, es: seq<Event>)
    requires Inv(s) && Legal(s, es) && s.latched
    ensures Open in View(Run(s, es).disk)
    ensures forall kept: seq<bool> | |kept| == |Run(s, es).disk.pending| ::
              Open in Survivors(Run(s, es).disk, kept)
    ensures Run(s, es).granted == s.granted && Run(s, es).runs == s.runs
    decreases |es|
  {
    if es == [] {
      PinnedFacts(s.disk, Open);
    } else {
      HistoryGrows(s, es[0]);
      NoNewPermit(s, es[0]);
      StepInv(s, es[0]);
      LatchedForever(Step(s, es[0]), es[1..]);
    }
  }

  /** The token a finish call was given. */
  function FinishToken(pc: Pc): Option<Token> {
    match pc
    case FinishLock(t, _) => Some(t)
    case FinishRead(t, _) => Some(t)
    case GuardCreate(t, _) => Some(t)
    case GuardWrite(t, _, _) => Some(t)
    case GuardSyncFile(t, _, _) => Some(t)
    case GuardSyncDir(t, _) => Some(t)
    case DropActive(t, _) => Some(t)
    case DropSync(t, _) => Some(t)
    case DropReleasing(t) => Some(t)
    case _ => None
  }

  /** A permit that was cleanly released never again changes the directory. */
  lemma StalePermitIsHarmless(s: Machine, e: Event)
    requires Inv(s) && Enabled(s, e) && e.Go?
    requires var t := FinishToken(s.procs[e.pid]); t.Some? && t.value in s.released
    ensures Step(s, e).disk == s.disk && Step(s, e).released == s.released
  {
    assert PcInv(s, s.procs[e.pid]);
    ActiveTokenIsLive(s, FinishToken(s.procs[e.pid]).value);
  }

  /** While a permit is out, every crash that leaves an active marker leaves it
      complete and carrying that permit's token. */
  lemma HeldTokenSurvives(s: Machine, t: Token, kept: seq<bool>, torn: set<nat>)
    requires Inv(s) && t in s.granted - s.released && |kept| == |s.disk.pending|
    requires Active in Survivors(s.disk, kept)
    ensures ActiveHolds(CrashDisk(s.disk, kept, torn), t)
  {
    KeptOrigin(s.disk.durable, s.disk.pending, kept, Active);
    assert TokenSafe(s.disk, t);
  }

  lemma {:induction false} RunConcat(s: Machine, before: seq<Event>, after: seq<Event>)
    requires Legal(s, before) && Legal(Run(s, before), after)
    ensures Legal(s, before + after) && Run(s, before + after) == Run(Run(s, before), after)
    decreases |before|
  {
    if before == [] {
      assert before + after == after;
    } else {
      assert (before + after)[1..] == before[1..] + after;
      RunConcat(Step(s, before[0]), before[1..], after);
    }
  }

  /** PermitHeld, from the empty directory: any prefix, then any continuation. */
  lemma LatchIsCrashSafe(before: seq<Event>, after: seq<Event>, t: Token)
    requires Legal(Init, before) && Legal(Run(Init, before), after)
    requires t in Run(Init, before).granted && t !in Run(Run(Init, before), after).released
    ensures Legal(Init, before + after)
    ensures var s := Run(Init, before + after);
            && Blocked(View(s.disk))
            && (forall kept: seq<bool> | |kept| == |s.disk.pending| :: Blocked(Survivors(s.disk, kept)))
            && s.granted == Run(Init, before).granted
  {
    ReachableInv(before);
    RunConcat(Init, before, after);
    PermitHeld(Run(Init, before), after, t);
  }
}
