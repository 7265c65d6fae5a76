/** Counters and object identities read out of a listing. */
module NftSnapshot {
  import opened Wrappers
  import opened NftPolicy

  type Counts = map<string, (nat, nat)>

  predicate Readable(n: CounterRow) {
    n.packets.Whole? && n.bytes.Whole? && n.packets.n >= 0 && n.bytes.n >= 0
  }

  function CounterFault(n: CounterRow, seen: Counts): Option<PolicyError> {
    if n.packets.Absent? || n.bytes.Absent? then Some(FieldMissing)
    else if n.name in seen || !Readable(n) then Some(CounterInvalid)
    else None
  }

  /** The counts of doc from its i-th entry on, added to those already seen. */
  function CountsFrom(doc: seq<Item>, i: nat, seen: Counts): Result<Counts, PolicyError>
    requires i <= |doc|
    decreases |doc| - i
  {
    if i == |doc| then Ok(seen)
    else if !doc[i].Counter? then CountsFrom(doc, i + 1, seen)
    else
      var n := doc[i].counter;
      if CounterFault(n, seen).Some? then Err(CounterFault(n, seen).value)
      else CountsFrom(doc, i + 1, seen[n.name := (n.packets.n, n.bytes.n)])
  }

  function CountersOf(doc: seq<Item>): Result<Counts, PolicyError> {
    CountsFrom(doc, 0, map[])
  }

  method CounterValues(doc: seq<Item>) returns (r: Result<Counts, PolicyError>)
    ensures r == CountersOf(doc)
  {
    var counts: Counts := map[];
    var i := 0;
    while i < |doc|
      invariant i <= |doc|
      invariant CountersOf(doc) == CountsFrom(doc, i, counts)
    {
      if doc[i].Counter? {
        var n := doc[i].counter;
        if n.packets.Absent? || n.bytes.Absent? { return Err(FieldMissing); }
        if n.name in counts || !n.packets.Whole? || !n.bytes.Whole? { return Err(CounterInvalid); }
        if n.packets.n < 0 || n.bytes.n < 0 { return Err(CounterInvalid); }
        counts := counts[n.name := (n.packets.n, n.bytes.n)];
      }
      i := i + 1;
    }
    return Ok(counts);
  }

  /** The k-th entry is a counter with that name and those counts. */
  predicate Shows(doc: seq<Item>, k: nat, name: string, counts: (nat, nat)) {
    k < |doc| && doc[k].Counter? && doc[k].counter.name == name
    && doc[k].counter.packets == Whole(counts.0) && doc[k].counter.bytes == Whole(counts.1)
  }

  lemma {:induction false} CountsFromFacts(doc: seq<Item>, i: nat, seen: Counts)
    requires i <= |doc|
    ensures CountsFrom(doc, i, seen).Ok?
       <==> && (forall k | i <= k < |doc| && doc[k].Counter? :: Readable(doc[k].counter) && doc[k].counter.name !in seen)
            && (forall j, k | i <= j < k < |doc| && doc[j].Counter? && doc[k].Counter? ::
                  doc[j].counter.name != doc[k].counter.name)
    ensures var r := CountsFrom(doc, i, seen);
            r.Ok? ==>
              && (forall name | name in seen :: name in r.value && r.value[name] == seen[name])
              && (forall k | i <= k < |doc| && doc[k].Counter? ::
                    doc[k].counter.name in r.value && Shows(doc, k, doc[k].counter.name, r.value[doc[k].counter.name]))
              && (forall name | name in r.value :: name in seen || exists k | i <= k < |doc| :: Shows(doc, k, name, r.value[name]))
    decreases |doc| - i
  {
    if i < |doc| {
      if !doc[i].Counter? {
        CountsFromFacts(doc, i + 1, seen);
      } else {
        var n := doc[i].counter;
        if CounterFault(n, seen).None? {
          CountsFromFacts(doc, i + 1, seen[n.name := (n.packets.n, n.bytes.n)]);
        }
      }
    }
  }

  /** Counters are read iff each is a pair of non-negative integers under its own
      name, and the map then shows every listed counter and nothing else. */
  lemma CountersFacts(doc: seq<Item>)
    ensures CountersOf(doc).Ok?
       <==> && (forall k | 0 <= k < |doc| && doc[k].Counter? :: Readable(doc[k].counter))
            && (forall j, k | 0 <= j < k < |doc| && doc[j].Counter? && doc[k].Counter? ::
                  doc[j].counter.name != doc[k].counter.name)
    ensures CountersOf(doc).Ok? ==>
      && (forall k: nat, name: string, c: (nat, nat) | Shows(doc, k, name, c) ::
            name in CountersOf(doc).value && CountersOf(doc).value[name] == c)
      && (forall name | name in CountersOf(doc).value :: exists k: nat :: Shows(doc, k, name, CountersOf(doc).value[name]))
  {
    CountsFromFacts(doc, 0, map[]);
    if CountersOf(doc).Ok? {
      forall k: nat, name: string, c: (nat, nat) | Shows(doc, k, name, c)
        ensures name in CountersOf(doc).value && CountersOf(doc).value[name] == c
      {
        assert doc[k].Counter?;
      }
    }
  }

  function Mark(item: Item): Reading {
    match item
    case Metainfo(_) => Absent
    case Table(t) => t.handle
    case Chain(c) => c.handle
    case Counter(n) => n.handle
    case Rule(r) => r.handle
    case Foreign(_, _, _, mark) => mark
  }

  function IdentityFault(item: Item): Option<PolicyError> {
    if !Mark(item).Whole? || Mark(item).n <= 0 then Some(HandlesRequired)
    else if item.Counter? && (item.counter.packets.Absent? || item.counter.bytes.Absent?) then Some(FieldMissing)
    else None
  }

  /** An object without its counts. */
  function Still(item: Item): Item {
    if item.Counter? then Counter(item.counter.(packets := Absent, bytes := Absent)) else item
  }

  function IdentityFrom(doc: seq<Item>, i: nat, seen: multiset<Item>): Result<multiset<Item>, PolicyError>
    requires i <= |doc|
    decreases |doc| - i
  {
    if i == |doc| then Ok(seen)
    else if doc[i].Metainfo? then IdentityFrom(doc, i + 1, seen)
    else if IdentityFault(doc[i]).Some? then Err(IdentityFault(doc[i]).value)
    else IdentityFrom(doc, i + 1, seen + multiset{Still(doc[i])})
  }

  /** The sorted list of identities, which two listings share iff these bags agree. */
  function Identity(doc: seq<Item>): Result<multiset<Item>, PolicyError> {
    IdentityFrom(doc, 0, multiset{})
  }

  method SnapshotIdentity(doc: seq<Item>) returns (r: Result<multiset<Item>, PolicyError>)
    ensures r == Identity(doc)
  {
    var bag: multiset<Item> := multiset{};
    var i := 0;
    while i < |doc|
      invariant i <= |doc|
      invariant Identity(doc) == IdentityFrom(doc, i, bag)
    {
      if !doc[i].Metainfo? {
        if !Mark(doc[i]).Whole? || Mark(doc[i]).n <= 0 { return Err(HandlesRequired); }
        if doc[i].Counter? && (doc[i].counter.packets.Absent? || doc[i].counter.bytes.Absent?) {
          return Err(FieldMissing);
        }
        bag := bag + multiset{Still(doc[i])};
      }
      i := i + 1;
    }
    return Ok(bag);
  }

  lemma {:induction false} IdentityMembers(doc: seq<Item>, i: nat, seen: multiset<Item>, x: Item)
    requires i <= |doc| && IdentityFrom(doc, i, seen).Ok?
    ensures x in IdentityFrom(doc, i, seen).value
       <==> x in seen || exists k | i <= k < |doc| :: !doc[k].Metainfo? && Still(doc[k]) == x
    decreases |doc| - i
  {
    if i < |doc| {
      IdentityMembers(doc, i + 1, if doc[i].Metainfo? then seen else seen + multiset{Still(doc[i])}, x);
    }
  }

  /** Snapshots with one identity list the same objects under the same handles: no
      table, chain, rule or counter of the first is missing or replaced in the second. */
  lemma SameObjects(before: seq<Item>, after: seq<Item>, k: nat)
    requires Identity(before).Ok? && Identity(before) == Identity(after)
    requires k < |before| && !before[k].Metainfo?
    ensures exists j | 0 <= j < |after| :: !after[j].Metainfo? && Still(after[j]) == Still(before[k])
  {
    IdentityMembers(before, 0, multiset{}, Still(before[k]));
    IdentityMembers(after, 0, multiset{}, Still(before[k]));
  }
}
