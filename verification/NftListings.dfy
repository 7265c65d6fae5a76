/** Listings that are to be accepted: what a kernel adds to a policy when it lists it, and
    that neither the shape nor the identity of a listing depends on it. */
module NftListings {
  import opened Wrappers
  import opened NftPolicy
  import opened NftSnapshot

  lemma {:induction false} CaseExported(cs: seq<Case>, c: Case, rest: seq<Expr>)
    requires c in cs
    ensures ExportFrom(cs, Selector(c) + rest) == [Selector(c)[1], Selector(c)[2], Selector(c)[4]] + rest
  {
    var es := Selector(c) + rest;
    assert es[..5] == Selector(c) && es[5..] == rest;
    if es[..5] != Selector(cs[0]) {
      assert c in cs[1..];
      CaseExported(cs[1..], c, rest);
    }
  }

  lemma ReplySpelled()
    ensures Replies == [StateMatch(In, ["established", "related"]), Accept]
    ensures Replies[0] != StateMatch(Equal, ["established", "related"])
  {
  }

  /** The rule of a case is listed without its two guards, and stays so. */
  lemma GuardsDropped(c: Case, rest: seq<Expr>)
    requires c in Cases()
    ensures var network := if c.family == "ipv4" then "ip" else "ip6";
            var listed := [PayloadMatch(Equal, network, "saddr", Text(c.source)),
                           PayloadMatch(Equal, network, "daddr", Text(c.address)),
                           PayloadMatch(Equal, c.transport, "dport", Number(c.port))] + rest;
            Export(Selector(c) + rest) == listed && Export(listed) == listed
  {
    CaseExported(Cases(), c, rest);
    ExportTwice(Selector(c) + rest);
  }

  lemma {:induction false} RepliesExported(cs: seq<Case>)
    ensures ExportFrom(cs, Replies) == [StateMatch(Equal, ["established", "related"]), Accept]
  {
    if cs != [] { RepliesExported(cs[1..]); }
  }

  /** The reply rule is listed with an equality, and stays so. */
  lemma ReplyRewritten()
    ensures var listed := [StateMatch(Equal, ["established", "related"]), Accept];
            Export([StateMatch(In, ["established", "related"]), Accept]) == listed && Export(listed) == listed
  {
    ReplySpelled();
    RepliesExported(Cases());
    ExportTwice(Replies);
  }

  /** How a kernel may list an object: under a handle, a counter with any counts, and a rule
      in its exported form. */
  predicate ListedAs(a: Item, b: Item) {
    match a
    case Metainfo(_) => b == a
    case Foreign(_, _, _, _) => b == a
    case Table(t) => b.Table? && b.table == t.(handle := b.table.handle)
    case Chain(c) => b.Chain? && b.chain == c.(handle := b.chain.handle)
    case Counter(n) =>
      b.Counter? && b.counter == n.(handle := b.counter.handle, packets := b.counter.packets, bytes := b.counter.bytes)
    case Rule(r) =>
      && b.Rule? && b.rule == r.(handle := b.rule.handle, expr := b.rule.expr)
      && (b.rule.expr == r.expr || b.rule.expr == Export(r.expr))
  }

  predicate Lists(doc: seq<Item>, listing: seq<Item>) {
    |listing| == |doc| && forall k | 0 <= k < |doc| :: ListedAs(doc[k], listing[k])
  }

  lemma PicksAlike(a: Item, b: Item)
    requires ListedAs(a, b)
    ensures PickTable(a) == PickTable(b) && PickChain(a) == PickChain(b) && PickCounter(a) == PickCounter(b)
    ensures PickRule(a) == PickRule(b) && ItemFault(a) == ItemFault(b)
  {
    if a.Rule? { ExportTwice(a.rule.expr); }
  }

  lemma {:induction false} CollectAlike<T>(pick: Item -> Option<T>, a: seq<Item>, b: seq<Item>)
    requires |a| == |b| && forall k | 0 <= k < |a| :: pick(a[k]) == pick(b[k])
    ensures Collect(pick, a) == Collect(pick, b)
  {
    if a != [] { CollectAlike(pick, a[1..], b[1..]); }
  }

  lemma {:induction false} FaultAlike(a: seq<Item>, b: seq<Item>, i: nat)
    requires |a| == |b| && i <= |a| && forall k | 0 <= k < |a| :: ItemFault(a[k]) == ItemFault(b[k])
    ensures Fault(a, i) == Fault(b, i)
    decreases |a| - i
  {
    if i < |a| { FaultAlike(a, b, i + 1); }
  }

  /** A listing of a document has the document's shape, whatever handles and counts it shows. */
  lemma ListingKeepsShape(doc: seq<Item>, listing: seq<Item>)
    requires Lists(doc, listing)
    ensures ShapeOf(listing) == ShapeOf(doc)
  {
    forall k | 0 <= k < |doc|
      ensures PickTable(doc[k]) == PickTable(listing[k]) && PickChain(doc[k]) == PickChain(listing[k])
      ensures PickCounter(doc[k]) == PickCounter(listing[k]) && PickRule(doc[k]) == PickRule(listing[k])
      ensures ItemFault(doc[k]) == ItemFault(listing[k])
    {
      PicksAlike(doc[k], listing[k]);
    }
    CollectAlike(PickTable, doc, listing);
    CollectAlike(PickChain, doc, listing);
    CollectAlike(PickCounter, doc, listing);
    CollectAlike(PickRule, doc, listing);
    FaultAlike(doc, listing, 0);
  }

  // ------------------------------------------------------------- refusals

  /** The first entry at or after i that no shape can hold, and what it is refused as. */
  predicate Refuses(doc: seq<Item>, i: int, k: int, e: PolicyError) {
    && i <= k < |doc| && 0 <= k
    && ((e == SchemaUnsupported && doc[k].Metainfo? && doc[k].version != Some(1))
        || (e == ObjectUnexpected && doc[k].Foreign? && doc[k].single)
        || (e == ObjectInvalid && doc[k].Foreign? && !doc[k].single))
  }

  lemma {:induction false} FaultExactly(doc: seq<Item>, i: nat)
    requires i <= |doc|
    ensures Fault(doc, i).None? <==> forall k | i <= k < |doc| :: !doc[k].Foreign? && (doc[k].Metainfo? ==> doc[k].version == Some(1))
    ensures Fault(doc, i).Some? ==> exists k :: Refuses(doc, i, k, Fault(doc, i).value)
    decreases |doc| - i
  {
    if i < |doc| {
      FaultExactly(doc, i + 1);
      if ItemFault(doc[i]).Some? {
        assert Refuses(doc, i, i, ItemFault(doc[i]).value);
      } else if Fault(doc, i + 1).Some? {
        var k :| Refuses(doc, i + 1, k, Fault(doc, i + 1).value);
        assert Refuses(doc, i, k, Fault(doc, i + 1).value);
      }
    }
  }

  /** A document has a shape exactly when it holds nothing but tables, chains, counters, rules
      and the schema version 1; it is refused as one of its other entries. */
  lemma ShapeExactly(doc: seq<Item>)
    ensures ShapeOf(doc).Ok?
       <==> forall k | 0 <= k < |doc| :: !doc[k].Foreign? && (doc[k].Metainfo? ==> doc[k].version == Some(1))
    ensures ShapeOf(doc).Err? ==> exists k :: Refuses(doc, 0, k, ShapeOf(doc).error)
  {
    FaultExactly(doc, 0);
  }

  // ------------------------------------------------------------- identities

  /** An object that a snapshot may hold: it has a positive handle, and a counter its counts. */
  predicate Handled(item: Item) {
    Mark(item).Whole? && Mark(item).n > 0 && (item.Counter? ==> !item.counter.packets.Absent? && !item.counter.bytes.Absent?)
  }

  lemma {:induction false} IdentityFromExactly(doc: seq<Item>, i: nat, seen: multiset<Item>)
    requires i <= |doc|
    ensures IdentityFrom(doc, i, seen).Ok? <==> forall k | i <= k < |doc| && !doc[k].Metainfo? :: Handled(doc[k])
    decreases |doc| - i
  {
    if i < |doc| {
      IdentityFromExactly(doc, i + 1, if doc[i].Metainfo? then seen else seen + multiset{Still(doc[i])});
    }
  }

  /** A snapshot has an identity exactly when all its objects have handles and counts. */
  lemma IdentityExactly(doc: seq<Item>)
    ensures Identity(doc).Ok? <==> forall k | 0 <= k < |doc| && !doc[k].Metainfo? :: Handled(doc[k])
  {
    IdentityFromExactly(doc, 0, multiset{});
  }

  /** The later listing shows the same objects under the same handles, with any counts. */
  predicate Recounts(before: Item, after: Item) {
    if before.Metainfo? then after.Metainfo?
    else !after.Metainfo? && Handled(after) && Still(after) == Still(before)
  }

  lemma {:induction false} IdentityAlike(before: seq<Item>, after: seq<Item>, i: nat, seen: multiset<Item>)
    requires |before| == |after| && i <= |before| && IdentityFrom(before, i, seen).Ok?
    requires forall k | 0 <= k < |before| :: Recounts(before[k], after[k])
    ensures IdentityFrom(after, i, seen) == IdentityFrom(before, i, seen)
    decreases |before| - i
  {
    if i < |before| {
      IdentityAlike(before, after, i + 1, if before[i].Metainfo? then seen else seen + multiset{Still(before[i])});
    }
  }

  /** Counting does not change the identity of a snapshot. */
  lemma CountingKeepsIdentity(before: seq<Item>, after: seq<Item>)
    requires |before| == |after| && Identity(before).Ok?
    requires forall k | 0 <= k < |before| :: Recounts(before[k], after[k])
    ensures Identity(after) == Identity(before)
  {
    IdentityAlike(before, after, 0, multiset{});
  }
}
