/** The fixed policies, packet by packet: a ruleset that passes the shape comparison
    lets through exactly the tuples its phase grants. */
module NftVerdicts {
  import opened Wrappers
  import opened StableSorting
  import opened NftPolicy
  import opened NftMeaning

  function CaseRules(phase: string, cs: seq<Case>, i: nat): seq<RuleRow>
    requires i <= |cs| <= 100
    decreases |cs| - i
  {
    if i == |cs| then [] else [CaseRule(phase, cs[i], i)] + CaseRules(phase, cs, i + 1)
  }

  predicate Granted(phase: string, c: Case) {
    phase != "restricted" || c.permitted
  }

  predicate SameTuple(c: Case, d: Case) {
    c.family == d.family && c.source == d.source && c.address == d.address
    && c.transport == d.transport && c.port == d.port
  }

  predicate Distinct(cs: seq<Case>) {
    forall j, k | 0 <= j < k < |cs| :: !SameTuple(cs[j], cs[k])
  }

  lemma FamilyDistinct(family: string, source: string, allowed: string, denied: string)
    requires allowed != denied
    ensures Distinct(FamilyCases(family, source, allowed, denied))
  {
  }

  lemma CasesDistinct()
    ensures Distinct(Cases())
  {
    FamilyDistinct("ipv4", "192.0.2.1", "192.0.2.2", "192.0.2.3");
    FamilyDistinct("ipv6", "2001:db8:7::1", "2001:db8:7::2", "2001:db8:7::3");
    var cs := Cases();
    forall j, k | 0 <= j < k < |cs| ensures !SameTuple(cs[j], cs[k]) {
      assert cs[j].family == (if j < 7 then "ipv4" else "ipv6");
      assert cs[k].family == (if k < 7 then "ipv4" else "ipv6");
    }
  }

  /** The packet bears the tuple of a granted case at or after i. */
  predicate GrantedFrom(phase: string, cs: seq<Case>, i: nat, p: Packet) {
    exists j | i <= j < |cs| :: HasTuple(p, cs[j]) && Granted(phase, cs[j])
  }

  lemma CaseEffect(m: Meaning, phase: string, c: Case, i: nat, p: Packet)
    requires i < 100 && Plain(c)
    ensures RuleEffect(m, CaseRule(phase, c, i).expr, p)
         == if HasTuple(p, c) then Verdict(Granted(phase, c)) else Next
  {
    var tail := [CounterRef(CounterName(i)), CaseVerdict(phase, c)];
    SelectorEffect(m, c, tail, p);
    Step(m, tail[0], [tail[1]], p);
    assert tail == [tail[0]] + [tail[1]];
  }

  lemma CaseRunStep(m: Meaning, all: seq<RuleRow>, phase: string, cs: seq<Case>, i: nat, p: Packet, depth: nat)
    requires i < |cs| <= 100 && Plain(cs[i])
    ensures RunRules(m, all, CaseRules(phase, cs, i), p, depth)
         == if HasTuple(p, cs[i]) then Decided(Granted(phase, cs[i]))
            else RunRules(m, all, CaseRules(phase, cs, i + 1), p, depth)
  {
    var rows := CaseRules(phase, cs, i);
    assert rows[0] == CaseRule(phase, cs[i], i) && rows[1..] == CaseRules(phase, cs, i + 1);
    CaseEffect(m, phase, cs[i], i, p);
  }

  lemma OneTuple(c: Case, d: Case, p: Packet)
    requires !SameTuple(c, d)
    ensures !(HasTuple(p, c) && HasTuple(p, d))
  {
  }

  lemma GrantedStep(phase: string, cs: seq<Case>, i: nat, p: Packet)
    requires i < |cs| && Distinct(cs)
    ensures GrantedFrom(phase, cs, i, p)
       <==> if HasTuple(p, cs[i]) then Granted(phase, cs[i]) else GrantedFrom(phase, cs, i + 1, p)
  {
    forall j | i < j < |cs| ensures !(HasTuple(p, cs[i]) && HasTuple(p, cs[j])) {
      OneTuple(cs[i], cs[j], p);
    }
  }

  /** First match over pairwise different tuples: the packet passes iff its tuple is granted. */
  lemma {:induction false} CaseRun(
    m: Meaning, all: seq<RuleRow>, phase: string, cs: seq<Case>, i: nat, p: Packet, depth: nat)
    requires i <= |cs| <= 100 && Distinct(cs)
    requires forall c | c in cs :: Plain(c)
    ensures RunRules(m, all, CaseRules(phase, cs, i), p, depth) == Decided(true) <==> GrantedFrom(phase, cs, i, p)
    decreases |cs| - i
  {
    if i == |cs| {
      assert CaseRules(phase, cs, i) == [];
    } else {
      CaseRunStep(m, all, phase, cs, i, p, depth);
      GrantedStep(phase, cs, i, p);
      CaseRun(m, all, phase, cs, i + 1, p, depth);
    }
  }

  lemma CaseChainAccepts(m: Meaning, phase: string, cs: seq<Case>, c: ChainRow, all: seq<RuleRow>, p: Packet, depth: nat)
    requires |cs| <= 100 && Distinct(cs)
    requires forall d | d in cs :: Plain(d)
    requires Filter(InChain(c.family, c.table, c.name), all) == CaseRules(phase, cs, 0)
    requires c.policy == Some("drop")
    ensures ChainAccepts(m, all, c, p, depth) <==> GrantedFrom(phase, cs, 0, p)
  {
    CaseRun(m, all, phase, cs, 0, p, depth);
  }

  lemma TwoItems(a: Item, b: Item, rest: seq<Item>)
    requires a.Counter? && b.Rule?
    ensures Collect(RawRule, [a, b] + rest) == [b.rule] + Collect(RawRule, rest)
    ensures Collect(RawChain, [a, b] + rest) == Collect(RawChain, rest)
  {
    var doc := [a, b] + rest;
    assert doc[1..] == [b] + rest && doc[1..][1..] == rest;
    assert Collect(RawRule, doc[1..]) == [b.rule] + Collect(RawRule, rest);
  }

  lemma {:induction false} CaseRows(phase: string, cs: seq<Case>, i: nat)
    requires i <= |cs| <= 100
    ensures Collect(RawRule, CaseItems(phase, cs, i)) == CaseRules(phase, cs, i)
    ensures Collect(RawChain, CaseItems(phase, cs, i)) == []
    decreases |cs| - i
  {
    if i < |cs| {
      var rest := CaseItems(phase, cs, i + 1);
      CaseRows(phase, cs, i + 1);
      TwoItems(Counter(CaseCounter(phase, i)), Rule(CaseRule(phase, cs[i], i)), rest);
    }
  }

  predicate Placed(r: RuleRow, table: string, chain: string) {
    r.family == "inet" && r.table == table && r.chain == chain
  }

  lemma {:induction false} CaseRowsPlaced(phase: string, cs: seq<Case>, i: nat)
    requires i <= |cs| <= 100
    ensures forall r | r in CaseRules(phase, cs, i) :: Placed(r, PolicyTable(phase), CaseChain(phase))
    decreases |cs| - i
  {
    if i < |cs| {
      CaseRowsPlaced(phase, cs, i + 1);
      assert Placed(CaseRule(phase, cs[i], i), PolicyTable(phase), CaseChain(phase));
    }
  }

  lemma ChainOfRows(rows: seq<RuleRow>, table: string, own: string, chain: string)
    requires forall r | r in rows :: Placed(r, table, own)
    ensures Filter(InChain("inet", table, chain), rows) == if chain == own then rows else []
  {
    forall j | 0 <= j < |rows| ensures InChain("inet", table, chain)(rows[j]) <==> chain == own {
      assert rows[j] in rows;
    }
    FilterAll(InChain("inet", table, chain), rows);
  }

  lemma PolicyRows(phase: string)
    ensures Collect(RawRule, PolicyItems(phase)) == [ReplyRule(phase)] + CaseRules(phase, Cases(), 0)
    ensures Collect(RawChain, PolicyItems(phase))
         == [BaseChain(phase, "input"), BaseChain(phase, "output"), BaseChain(phase, "forward")]
  {
    var tail := CaseItems(phase, Cases(), 0);
    CaseRows(phase, Cases(), 0);
    HeadRows(phase, tail);
  }

  lemma HeadRows(phase: string, tail: seq<Item>)
    ensures Collect(RawRule, PolicyHead(phase) + tail) == [ReplyRule(phase)] + Collect(RawRule, tail)
    ensures Collect(RawChain, PolicyHead(phase) + tail)
         == [BaseChain(phase, "input"), BaseChain(phase, "output"), BaseChain(phase, "forward")] + Collect(RawChain, tail)
  {
    var h := PolicyHead(phase);
    CollectConcat(RawRule, h, tail);
    CollectConcat(RawChain, h, tail);
    FiveItems(h);
  }

  lemma FiveItems(h: seq<Item>)
    requires |h| == 5 && h[0].Table? && h[1].Chain? && h[2].Chain? && h[3].Chain? && h[4].Rule?
    ensures Collect(RawRule, h) == [h[4].rule]
    ensures Collect(RawChain, h) == [h[1].chain, h[2].chain, h[3].chain]
  {
    var h3, h2, h1 := h[3..], h[2..], h[1..];
    assert h3[1..] == [h[4]] && h2[1..] == h3 && h1[1..] == h2 && [h[4]][1..] == [];
    assert Collect(RawRule, [h[4]]) == [h[4].rule] && Collect(RawChain, [h[4]]) == [];
    assert Collect(RawRule, h3) == [h[4].rule];
    assert Collect(RawRule, h2) == [h[4].rule];
    assert Collect(RawRule, h1) == [h[4].rule];
    assert Collect(RawChain, h3) == [h[3].chain];
    assert Collect(RawChain, h2) == [h[2].chain] + [h[3].chain];
    assert Collect(RawChain, h1) == [h[1].chain] + [h[2].chain, h[3].chain];
  }

  /** What a packet must satisfy to pass a hook under the policy of a phase. */
  predicate Allowed(phase: string, hook: string, p: Packet) {
    if hook == CaseChain(phase) then GrantedFrom(phase, Cases(), 0, p)
    else if hook == ReplyChain(phase) then p.state in ["established", "related"]
    else hook != "forward"
  }

  lemma ChainRows(phase: string, rows: seq<RuleRow>, chain: string)
    requires forall r | r in rows :: Placed(r, PolicyTable(phase), CaseChain(phase))
    ensures Filter(InChain("inet", PolicyTable(phase), chain), [ReplyRule(phase)] + rows)
         == (if chain == ReplyChain(phase) then [ReplyRule(phase)] else []) + (if chain == CaseChain(phase) then rows else [])
  {
    var reply := ReplyRule(phase);
    FilterConcat(InChain("inet", PolicyTable(phase), chain), [reply], rows);
    ChainOfRows(rows, PolicyTable(phase), CaseChain(phase), chain);
    assert Placed(reply, PolicyTable(phase), ReplyChain(phase));
    ChainOfRows([reply], PolicyTable(phase), ReplyChain(phase), chain);
  }

  lemma ChainAllowed(m: Meaning, phase: string, cs: seq<Case>, chain: string, p: Packet, depth: nat)
    requires |cs| <= 100 && Distinct(cs)
    requires forall c | c in cs :: Plain(c)
    ensures var accepted := ChainAccepts(m, [ReplyRule(phase)] + CaseRules(phase, cs, 0), BaseChain(phase, chain), p, depth);
            && (chain == CaseChain(phase) ==> (accepted <==> GrantedFrom(phase, cs, 0, p)))
            && (chain == ReplyChain(phase) ==> (accepted <==> p.state in ["established", "related"]))
            && (chain == "forward" ==> !accepted)
  {
    var rows, reply := CaseRules(phase, cs, 0), [ReplyRule(phase)];
    var all := reply + rows;
    CaseRowsPlaced(phase, cs, 0);
    ChainRows(phase, rows, chain);
    assert CaseChain(phase) != ReplyChain(phase);
    if chain == CaseChain(phase) {
      assert [] + rows == rows;
      CaseChainAccepts(m, phase, cs, BaseChain(phase, chain), all, p, depth);
    } else if chain == ReplyChain(phase) {
      assert reply + [] == reply;
      ReplyRun(m, all, phase, p, depth);
    }
  }

  lemma ReplyRun(m: Meaning, all: seq<RuleRow>, phase: string, p: Packet, depth: nat)
    ensures RunRules(m, all, [ReplyRule(phase)], p, depth)
         == if p.state in ["established", "related"] then Decided(true) else Undecided
  {
    Step(m, Replies[0], [Accept], p);
    assert Replies == [Replies[0]] + [Accept];
  }

  lemma HooksOf(m: Meaning, phase: string, cs: seq<Case>, hook: string, p: Packet, depth: nat)
    requires |cs| <= 100 && Distinct(cs)
    requires forall c | c in cs :: Plain(c)
    ensures var chains := [BaseChain(phase, "input"), BaseChain(phase, "output"), BaseChain(phase, "forward")];
            HookAccepts(m, chains, [ReplyRule(phase)] + CaseRules(phase, cs, 0), hook, p, depth) <==>
            if hook == CaseChain(phase) then GrantedFrom(phase, cs, 0, p)
            else if hook == ReplyChain(phase) then p.state in ["established", "related"]
            else hook != "forward"
  {
    var chains := [BaseChain(phase, "input"), BaseChain(phase, "output"), BaseChain(phase, "forward")];
    var all := [ReplyRule(phase)] + CaseRules(phase, cs, 0);
    ChainAllowed(m, phase, cs, hook, p, depth);
    if hook == "input" || hook == "output" || hook == "forward" {
      assert BaseChain(phase, hook) in chains;
      assert HookAccepts(m, chains, all, hook, p, depth) <==> ChainAccepts(m, all, BaseChain(phase, hook), p, depth);
    }
  }

  /** The policy of a phase, hook by hook. */
  lemma PolicyPasses(m: Meaning, phase: string, hook: string, p: Packet, depth: nat)
    ensures Passes(m, PolicyItems(phase), hook, p, depth) <==> Allowed(phase, hook, p)
  {
    PolicyRows(phase);
    CasesDistinct();
    forall c | c in Cases() ensures Plain(c) { CasesPlain(c); }
    HooksOf(m, phase, Cases(), hook, p, depth);
  }

  /** A ruleset shaped like the policy of a phase passes exactly what the phase allows:
      in the restricted phase, an output packet passes iff it bears a permitted tuple. */
  lemma ShapedLikePolicy(m: Meaning, phase: string, doc: seq<Item>, hook: string, p: Packet, depth: nat)
    requires ShapeOf(doc).Ok? && ShapeOf(doc) == ShapeOf(PolicyItems(phase))
    ensures Passes(m, doc, hook, p, depth) <==> Allowed(phase, hook, p)
  {
    ShapeSound(m, doc, PolicyItems(phase), p, depth);
    PolicyPasses(m, phase, hook, p, depth);
  }
}
