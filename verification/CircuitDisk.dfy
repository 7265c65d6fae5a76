/** A private state directory with explicit durability.

    Directory operations are volatile until the directory itself is fsynced.
    A machine crash keeps the durable entries and an arbitrary subset of the
    operations issued since the last directory fsync; a file body that was not
    fsynced may come back blank. */
module CircuitDisk {

  type Token = nat

  datatype Failure = Unavailable | Timeout | RateLimited | Safety

  /** The three circuit markers, and one claim file per consumed grant. */
  datatype Name = Active | Releasing | Open | Consumed(grant: string)

  /** Blank also stands for a torn or short write: never a complete token. */
  datatype Content = Blank | Permit(token: Token) | Reason(failure: Failure)

  datatype Body = Body(content: Content, synced: bool)

  datatype DirOp = Link(name: Name, inode: nat) | Drop(name: Name)

  type Directory = map<Name, nat>

  datatype Disk = Disk(durable: Directory, pending: seq<DirOp>, files: seq<Body>)

  function Apply(d: Directory, op: DirOp): Directory {
    match op
    case Link(n, i) => d[n := i]
    case Drop(n) => d - {n}
  }

  function ApplyAll(d: Directory, ops: seq<DirOp>): Directory {
    if ops == [] then d
    else Apply(ApplyAll(d, ops[..|ops| - 1]), ops[|ops| - 1])
  }

  /** The directory a running process sees. */
  function View(d: Disk): Directory {
    ApplyAll(d.durable, d.pending)
  }

  /** The entries left when a crash keeps exactly the marked operations. */
  function ApplyKept(d: Directory, ops: seq<DirOp>, kept: seq<bool>): Directory
    requires |kept| == |ops|
  {
    if ops == [] then d
    else
      var n := |ops| - 1;
      var rest := ApplyKept(d, ops[..n], kept[..n]);
      if kept[n] then Apply(rest, ops[n]) else rest
  }

  function Survivors(d: Disk, kept: seq<bool>): Directory
    requires |kept| == |d.pending|
  {
    ApplyKept(d.durable, d.pending, kept)
  }

  /** A crash: some pending entries are kept, unsynced bodies may be torn. */
  function CrashDisk(d: Disk, kept: seq<bool>, torn: set<nat>): Disk
    requires |kept| == |d.pending|
  {
    Disk(Survivors(d, kept), [],
         seq(|d.files|, i requires 0 <= i < |d.files| =>
           if i in torn && !d.files[i].synced then Body(Blank, false) else d.files[i]))
  }

  function Push(d: Disk, op: DirOp): Disk {
    d.(pending := d.pending + [op])
  }

  /** O_CREAT|O_EXCL of an absent name: an empty body and a volatile entry. */
  function Create(d: Disk, n: Name): Disk {
    Push(d, Link(n, |d.files|)).(files := d.files + [Body(Blank, false)])
  }

  function WriteBody(d: Disk, i: nat, c: Content): Disk
    requires i < |d.files|
  {
    d.(files := d.files[i := Body(c, false)])
  }

  function SyncBody(d: Disk, i: nat): Disk
    requires i < |d.files|
  {
    d.(files := d.files[i := d.files[i].(synced := true)])
  }

  function SyncDirectory(d: Disk): Disk {
    d.(durable := View(d), pending := [])
  }

  ghost predicate Untouched(ops: seq<DirOp>, n: Name) {
    forall op :: op in ops ==> op.name != n
  }

  /** The entry exists and no crash can lose it. */
  ghost predicate Pinned(d: Disk, n: Name) {
    n in d.durable && Untouched(d.pending, n)
  }

  /** The entry is absent and no crash can bring it back. */
  ghost predicate Gone(d: Disk, n: Name) {
    n !in d.durable && Untouched(d.pending, n)
  }

  predicate Blocked(d: Directory) {
    Active in d || Releasing in d || Open in d
  }

  /** The active marker is there and holds exactly this permit's token. */
  predicate ActiveHolds(d: Disk, token: Token) {
    var view := View(d);
    Active in view && view[Active] < |d.files| && d.files[view[Active]].content == Permit(token)
  }

  /** Some marker exists now and after every crash. */
  ghost predicate SafelyBlocked(d: Disk) {
    Pinned(d, Active) || Pinned(d, Releasing) || Pinned(d, Open)
  }

  lemma {:induction false} UntouchedApply(d: Directory, ops: seq<DirOp>, n: Name)
    requires Untouched(ops, n)
    ensures n in ApplyAll(d, ops) <==> n in d
    ensures n in d ==> ApplyAll(d, ops)[n] == d[n]
  {
    if ops != [] {
      assert ops[|ops| - 1] in ops;
      UntouchedApply(d, ops[..|ops| - 1], n);
    }
  }

  lemma {:induction false} UntouchedKept(d: Directory, ops: seq<DirOp>, kept: seq<bool>, n: Name)
    requires |kept| == |ops|
    requires Untouched(ops, n)
    ensures n in ApplyKept(d, ops, kept) <==> n in d
    ensures n in d ==> ApplyKept(d, ops, kept)[n] == d[n]
  {
    if ops != [] {
      assert ops[|ops| - 1] in ops;
      UntouchedKept(d, ops[..|ops| - 1], kept[..|ops| - 1], n);
    }
  }

  /** Pinned and Gone are exactly about the view and about every crash. */
  lemma PinnedFacts(d: Disk, n: Name)
    ensures Pinned(d, n) ==> n in View(d) && View(d)[n] == d.durable[n]
    ensures Gone(d, n) ==> n !in View(d)
    ensures Pinned(d, n) ==>
              forall kept: seq<bool> | |kept| == |d.pending| ::
                n in Survivors(d, kept) && Survivors(d, kept)[n] == d.durable[n]
    ensures Gone(d, n) ==>
              forall kept: seq<bool> | |kept| == |d.pending| :: n !in Survivors(d, kept)
  {
    if Untouched(d.pending, n) {
      UntouchedApply(d.durable, d.pending, n);
      forall kept: seq<bool> | |kept| == |d.pending|
        ensures n in Survivors(d, kept) <==> n in d.durable
        ensures n in d.durable ==> Survivors(d, kept)[n] == d.durable[n]
      {
        UntouchedKept(d.durable, d.pending, kept, n);
      }
    }
  }

  lemma PushFacts(d: Disk, op: DirOp)
    ensures View(Push(d, op)) == Apply(View(d), op)
    ensures forall n | n != op.name :: Pinned(Push(d, op), n) == Pinned(d, n)
    ensures forall n | n != op.name :: Gone(Push(d, op), n) == Gone(d, n)
  {
    assert (d.pending + [op])[..|d.pending|] == d.pending;
  }

  lemma CreateFacts(d: Disk, n: Name)
    ensures View(Create(d, n)) == View(d)[n := |d.files|]
    ensures forall m | m != n :: Pinned(Create(d, n), m) == Pinned(d, m)
    ensures forall m | m != n :: Gone(Create(d, n), m) == Gone(d, m)
  {
    PushFacts(d, Link(n, |d.files|));
  }

  lemma SyncFacts(d: Disk)
    ensures View(SyncDirectory(d)) == View(d)
    ensures forall n :: Pinned(SyncDirectory(d), n) <==> n in View(d)
    ensures forall n :: Gone(SyncDirectory(d), n) <==> n !in View(d)
  {
  }

  /** Every entry seen, now or after a crash, was durable or was linked since. */
  lemma {:induction false} ViewOrigin(d: Directory, ops: seq<DirOp>, n: Name)
    ensures n in ApplyAll(d, ops) ==>
              (n in d && ApplyAll(d, ops)[n] == d[n]) || Link(n, ApplyAll(d, ops)[n]) in ops
  {
    if ops != [] {
      ViewOrigin(d, ops[..|ops| - 1], n);
    }
  }

  lemma {:induction false} KeptOrigin(d: Directory, ops: seq<DirOp>, kept: seq<bool>, n: Name)
    requires |kept| == |ops|
    ensures n in ApplyKept(d, ops, kept) ==>
              (n in d && ApplyKept(d, ops, kept)[n] == d[n]) || Link(n, ApplyKept(d, ops, kept)[n]) in ops
  {
    if ops != [] {
      KeptOrigin(d, ops[..|ops| - 1], kept[..|ops| - 1], n);
    }
  }
}
