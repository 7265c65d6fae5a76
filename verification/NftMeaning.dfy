/** What a listed ruleset does to a packet, and why comparing normal forms is sound. */
module NftMeaning {
  import opened Wrappers
  import opened StableSorting
  import opened NftPolicy

  /** A packet: its family ("ipv4" or "ipv6"), transport and connection state, and
      the header fields it carries, indexed by protocol and field name. */
  datatype Packet = Packet(
    family: string, transport: string, state: string, fields: map<(string, string), Value>)

  /** The truth of a match the contract does not fix: any predicate at all. */
  type Meaning = (Expr, Packet) -> bool

  /** Reading a field of these protocols presupposes the layer that carries it. */
  predicate Layer(protocol: string, p: Packet) {
    if protocol == "ip" then p.family == "ipv4"
    else if protocol == "ip6" then p.family == "ipv6"
    else if protocol == "tcp" || protocol == "udp" then p.transport == protocol
    else true
  }

  predicate Carries(p: Packet, protocol: string, field: string, value: Value) {
    (protocol, field) in p.fields && p.fields[(protocol, field)] == value
  }

  predicate MetaIs(p: Packet, key: string, value: Value) {
    if key == "nfproto" then Text(p.family) == value
    else if key == "l4proto" then Text(p.transport) == value
    else Carries(p, "meta", key, value)
  }

  predicate Holds(m: Meaning, e: Expr, p: Packet) {
    match e
    case MetaMatch(op, key, value) => if op == In then m(e, p) else MetaIs(p, key, value) == (op == Equal)
    case PayloadMatch(op, protocol, field, value) =>
      if op == In then m(e, p)
      else Layer(protocol, p) && (protocol, field) in p.fields
           && Carries(p, protocol, field, value) == (op == Equal)
    case StateMatch(op, states) => (p.state in states) == (op != NotEqual)
    case Unknown(_) => m(e, p)
    case _ => true
  }

  datatype Effect = Next | Verdict(accept: bool) | Back | Call(target: string) | Leave(target: string)

  /** What a rule does: nothing unless every match before its verdict holds. */
  function RuleEffect(m: Meaning, es: seq<Expr>, p: Packet): Effect {
    if es == [] then Next
    else match es[0]
         case Accept => Verdict(true)
         case Drop => Verdict(false)
         case Return => Back
         case Jump(target) => Call(target)
         case Goto(target) => Leave(target)
         case _ => if Holds(m, es[0], p) then RuleEffect(m, es[1..], p) else Next
  }

  datatype Outcome = Decided(accept: bool) | Undecided

  function InChain(family: string, table: string, chain: string): RuleRow -> bool {
    (r: RuleRow) => r.family == family && r.table == table && r.chain == chain
  }

  /** Runs the rules rs of one chain against the whole rule list; depth bounds the
      nesting of chains, and a packet that would exceed it is dropped. */
  function RunRules(m: Meaning, all: seq<RuleRow>, rs: seq<RuleRow>, p: Packet, depth: nat): Outcome
    decreases depth, |rs|
  {
    if rs == [] then Undecided
    else match RuleEffect(m, rs[0].expr, p)
         case Next => RunRules(m, all, rs[1..], p, depth)
         case Verdict(accept) => Decided(accept)
         case Back => Undecided
         case Call(target) =>
           if depth == 0 then Decided(false)
           else
             var inner := RunRules(m, all, Filter(InChain(rs[0].family, rs[0].table, target), all), p, depth - 1);
             if inner.Decided? then inner else RunRules(m, all, rs[1..], p, depth)
         case Leave(target) =>
           if depth == 0 then Decided(false)
           else RunRules(m, all, Filter(InChain(rs[0].family, rs[0].table, target), all), p, depth - 1)
  }

  predicate ChainAccepts(m: Meaning, all: seq<RuleRow>, c: ChainRow, p: Packet, depth: nat) {
    match RunRules(m, all, Filter(InChain(c.family, c.table, c.name), all), p, depth)
    case Decided(accept) => accept
    case Undecided => c.policy != Some("drop")
  }

  predicate Covers(family: string, p: Packet) {
    family == "inet" || (family == "ip" && p.family == "ipv4") || (family == "ip6" && p.family == "ipv6")
  }

  /** A packet passes a hook when every chain attached there accepts it. */
  predicate HookAccepts(m: Meaning, chains: seq<ChainRow>, all: seq<RuleRow>, hook: string, p: Packet, depth: nat) {
    forall c | c in chains && c.hook == Some(hook) && Covers(c.family, p) :: ChainAccepts(m, all, c, p, depth)
  }

  function RawChain(item: Item): Option<ChainRow> {
    if item.Chain? then Some(item.chain) else None
  }

  function RawRule(item: Item): Option<RuleRow> {
    if item.Rule? then Some(item.rule) else None
  }

  predicate Passes(m: Meaning, doc: seq<Item>, hook: string, p: Packet, depth: nat) {
    HookAccepts(m, Collect(RawChain, doc), Collect(RawRule, doc), hook, p, depth)
  }

  /** The outcome of one chain, whether or not it is attached to a hook. */
  function ChainOutcome(m: Meaning, doc: seq<Item>, family: string, table: string, chain: string, p: Packet, depth: nat)
    : Outcome
  {
    var all := Collect(RawRule, doc);
    RunRules(m, all, Filter(InChain(family, table, chain), all), p, depth)
  }

  predicate Plain(c: Case) {
    (c.family == "ipv4" || c.family == "ipv6") && (c.transport == "tcp" || c.transport == "udp")
  }

  lemma CasesPlain(c: Case)
    requires c in Cases()
    ensures Plain(c)
  {
  }

  /** The packet bears the family, addresses, transport and port of the case. */
  predicate HasTuple(p: Packet, c: Case) {
    && p.family == c.family && p.transport == c.transport
    && Carries(p, Network(c), "saddr", Text(c.source)) && Carries(p, Network(c), "daddr", Text(c.address))
    && Carries(p, c.transport, "dport", Number(c.port))
  }

  lemma Step(m: Meaning, e: Expr, es: seq<Expr>, p: Packet)
    requires e.MetaMatch? || e.PayloadMatch? || e.StateMatch? || e.CounterRef?
    ensures RuleEffect(m, [e] + es, p) == if Holds(m, e, p) then RuleEffect(m, es, p) else Next
  {
    assert ([e] + es)[1..] == es;
  }

  lemma Steps(m: Meaning, a: Expr, b: Expr, c: Expr, es: seq<Expr>, p: Packet)
    requires a.MetaMatch? || a.PayloadMatch?
    requires b.MetaMatch? || b.PayloadMatch?
    requires c.MetaMatch? || c.PayloadMatch?
    ensures RuleEffect(m, [a, b, c] + es, p)
         == if Holds(m, a, p) && Holds(m, b, p) && Holds(m, c, p) then RuleEffect(m, es, p) else Next
  {
    Step(m, a, [b, c] + es, p);
    Step(m, b, [c] + es, p);
    Step(m, c, es, p);
    assert [a, b, c] + es == [a] + ([b] + ([c] + es));
    assert [b, c] + es == [b] + ([c] + es);
  }

  lemma SelectorEffect(m: Meaning, c: Case, es: seq<Expr>, p: Packet)
    ensures Plain(c) ==> RuleEffect(m, Selector(c) + es, p) == if HasTuple(p, c) then RuleEffect(m, es, p) else Next
  {
    var s := Selector(c);
    Steps(m, s[0], s[1], s[2], [s[3], s[4]] + es, p);
    Step(m, s[3], [s[4]] + es, p);
    Step(m, s[4], es, p);
    assert s + es == [s[0], s[1], s[2]] + ([s[3], s[4]] + es);
    assert [s[3], s[4]] + es == [s[3]] + ([s[4]] + es);
  }

  lemma {:induction false} ExportFromSound(m: Meaning, cs: seq<Case>, es: seq<Expr>, p: Packet)
    requires forall c | c in cs :: Plain(c)
    ensures RuleEffect(m, ExportFrom(cs, es), p) == RuleEffect(m, es, p)
  {
    if cs == [] {
      if es == Replies {
        Step(m, StateMatch(Equal, ["established", "related"]), [Accept], p);
        Step(m, StateMatch(In, ["established", "related"]), [Accept], p);
        assert es == [StateMatch(In, ["established", "related"])] + [Accept];
        assert ExportFrom(cs, es) == [StateMatch(Equal, ["established", "related"])] + [Accept];
      }
    } else {
      var s := Selector(cs[0]);
      if |es| >= 5 && es[..5] == s {
        assert es == s + es[5..];
        SelectorEffect(m, cs[0], es[5..], p);
        Steps(m, s[1], s[2], s[4], es[5..], p);
      } else {
        ExportFromSound(m, cs[1..], es, p);
      }
    }
  }

  /** Dropping the guards and rewriting the reply match changes no packet's fate. */
  lemma ExportSound(m: Meaning, es: seq<Expr>, p: Packet)
    ensures RuleEffect(m, Export(es), p) == RuleEffect(m, es, p)
  {
    forall c | c in Cases() ensures Plain(c) { CasesPlain(c); }
    ExportFromSound(m, Cases(), es, p);
  }

  function CleanRules(rs: seq<RuleRow>): seq<RuleRow> {
    if rs == [] then [] else [CleanRule(rs[0])] + CleanRules(rs[1..])
  }

  lemma {:induction false} FilterClean(family: string, table: string, chain: string, rs: seq<RuleRow>)
    ensures Filter(InChain(family, table, chain), CleanRules(rs))
         == CleanRules(Filter(InChain(family, table, chain), rs))
  {
    if rs != [] {
      FilterClean(family, table, chain, rs[1..]);
      assert CleanRules(rs)[1..] == CleanRules(rs[1..]);
      var f := InChain(family, table, chain);
      if f(rs[0]) {
        assert Filter(f, rs)[1..] == Filter(f, rs[1..]);
      } else {
        assert Filter(f, rs) == Filter(f, rs[1..]);
      }
    }
  }

  /** Rule by rule, the same place and the same effect on the packet. */
  predicate Alike(m: Meaning, p: Packet, rs: seq<RuleRow>, ts: seq<RuleRow>) {
    && |rs| == |ts|
    && forall i | 0 <= i < |rs| ::
         && rs[i].family == ts[i].family && rs[i].table == ts[i].table
         && RuleEffect(m, rs[i].expr, p) == RuleEffect(m, ts[i].expr, p)
  }

  ghost predicate AlikeChains(m: Meaning, p: Packet, a: seq<RuleRow>, b: seq<RuleRow>) {
    forall family: string, table: string, chain: string ::
      Alike(m, p, Filter(InChain(family, table, chain), a), Filter(InChain(family, table, chain), b))
  }

  lemma {:induction false} CleanAlike(m: Meaning, p: Packet, rs: seq<RuleRow>)
    ensures Alike(m, p, CleanRules(rs), rs)
  {
    if rs != [] {
      ExportSound(m, rs[0].expr, p);
      CleanAlike(m, p, rs[1..]);
    }
  }

  /** A run looks at the rule list only chain by chain, and at a rule only for its effect. */
  lemma {:induction false} RunAlike(m: Meaning, a: seq<RuleRow>, b: seq<RuleRow>, rs: seq<RuleRow>, ts: seq<RuleRow>,
                                    p: Packet, depth: nat)
    requires AlikeChains(m, p, a, b) && Alike(m, p, rs, ts)
    ensures RunRules(m, a, rs, p, depth) == RunRules(m, b, ts, p, depth)
    decreases depth, |rs|
  {
    if rs != [] {
      assert Alike(m, p, rs[1..], ts[1..]);
      RunAlike(m, a, b, rs[1..], ts[1..], p, depth);
      match RuleEffect(m, rs[0].expr, p) {
        case Call(target) =>
          var f := InChain(rs[0].family, rs[0].table, target);
          if depth > 0 { RunAlike(m, a, b, Filter(f, a), Filter(f, b), p, depth - 1); }
        case Leave(target) =>
          var f := InChain(rs[0].family, rs[0].table, target);
          if depth > 0 { RunAlike(m, a, b, Filter(f, a), Filter(f, b), p, depth - 1); }
        case _ =>
      }
    }
  }

  /** Sorting the whole list by chain leaves every single chain as it was. */
  lemma ChainOfSorted(family: string, table: string, chain: string, all: seq<RuleRow>)
    ensures Filter(InChain(family, table, chain), StableSort(ByRuleChain, all))
         == Filter(InChain(family, table, chain), all)
  {
    SortKeeps(ByRuleChain, InChain(family, table, chain), chain, all);
  }

  /** A chain decides every packet alike before and after normalisation. */
  lemma RunNormal(m: Meaning, all: seq<RuleRow>, family: string, table: string, chain: string, p: Packet, depth: nat)
    ensures var normal := StableSort(ByRuleChain, CleanRules(all));
            RunRules(m, normal, Filter(InChain(family, table, chain), normal), p, depth) ==
            RunRules(m, all, Filter(InChain(family, table, chain), all), p, depth)
  {
    var normal := StableSort(ByRuleChain, CleanRules(all));
    forall family: string, table: string, chain: string
      ensures Alike(m, p, Filter(InChain(family, table, chain), normal), Filter(InChain(family, table, chain), all))
    {
      ChainOfSorted(family, table, chain, CleanRules(all));
      FilterClean(family, table, chain, all);
      CleanAlike(m, p, Filter(InChain(family, table, chain), all));
    }
    var f := InChain(family, table, chain);
    RunAlike(m, normal, all, Filter(f, normal), Filter(f, all), p, depth);
  }

  lemma {:induction false} PickedRules(doc: seq<Item>)
    ensures Collect(PickRule, doc) == CleanRules(Collect(RawRule, doc))
  {
    if doc != [] {
      PickedRules(doc[1..]);
      if doc[0].Rule? {
        assert Collect(RawRule, doc) == [doc[0].rule] + Collect(RawRule, doc[1..]);
      } else {
        assert Collect(RawRule, doc) == Collect(RawRule, doc[1..]);
      }
    }
  }

  lemma {:induction false} PickedChains(doc: seq<Item>, c: ChainRow)
    ensures c in Collect(RawChain, doc) ==> CleanChain(c) in Collect(PickChain, doc)
    ensures c in Collect(PickChain, doc) ==> exists d | d in Collect(RawChain, doc) :: CleanChain(d) == c
  {
    if doc != [] {
      PickedChains(doc[1..], c);
      assert forall d | d in Collect(RawChain, doc[1..]) :: d in Collect(RawChain, doc);
      if doc[0].Chain? { assert doc[0].chain in Collect(RawChain, doc); }
    }
  }

  /** One ruleset passes no packet that another with the same shape refuses. */
  lemma ShapeImplies(m: Meaning, d1: seq<Item>, d2: seq<Item>, hook: string, p: Packet, depth: nat)
    requires ShapeOf(d1).Ok? && ShapeOf(d1) == ShapeOf(d2)
    requires Passes(m, d1, hook, p, depth)
    ensures Passes(m, d2, hook, p, depth)
  {
    var all1, all2 := Collect(RawRule, d1), Collect(RawRule, d2);
    PickedRules(d1);
    PickedRules(d2);
    forall c | c in Collect(RawChain, d2) && c.hook == Some(hook) && Covers(c.family, p)
      ensures ChainAccepts(m, all2, c, p, depth)
    {
      PickedChains(d2, c);
      assert CleanChain(c) in multiset(Collect(PickChain, d2));
      assert CleanChain(c) in multiset(StableSort(ByChain, Collect(PickChain, d2)));
      assert CleanChain(c) in multiset(Collect(PickChain, d1));
      PickedChains(d1, CleanChain(c));
      var d :| d in Collect(RawChain, d1) && CleanChain(d) == CleanChain(c);
      assert ChainAccepts(m, all1, d, p, depth);
      RunNormal(m, all1, c.family, c.table, c.name, p, depth);
      RunNormal(m, all2, c.family, c.table, c.name, p, depth);
    }
  }

  /** Rulesets with equal shapes treat every packet alike at every hook and in every
      chain, whatever the matches outside the contract mean. */
  lemma ShapeSound(m: Meaning, d1: seq<Item>, d2: seq<Item>, p: Packet, depth: nat)
    requires ShapeOf(d1).Ok? && ShapeOf(d1) == ShapeOf(d2)
    ensures forall hook: string :: Passes(m, d1, hook, p, depth) <==> Passes(m, d2, hook, p, depth)
    ensures forall family: string, table: string, chain: string ::
              ChainOutcome(m, d1, family, table, chain, p, depth) == ChainOutcome(m, d2, family, table, chain, p, depth)
  {
    forall hook: string ensures Passes(m, d1, hook, p, depth) <==> Passes(m, d2, hook, p, depth) {
      if Passes(m, d1, hook, p, depth) { ShapeImplies(m, d1, d2, hook, p, depth); }
      if Passes(m, d2, hook, p, depth) { ShapeImplies(m, d2, d1, hook, p, depth); }
    }
    PickedRules(d1);
    PickedRules(d2);
    forall family: string, table: string, chain: string
      ensures ChainOutcome(m, d1, family, table, chain, p, depth) == ChainOutcome(m, d2, family, table, chain, p, depth)
    {
      RunNormal(m, Collect(RawRule, d1), family, table, chain, p, depth);
      RunNormal(m, Collect(RawRule, d2), family, table, chain, p, depth);
    }
  }
}
