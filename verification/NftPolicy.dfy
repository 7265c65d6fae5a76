/** The synthetic nftables contract: the fixed cases, the policies compiled from
    them, and the normal form in which a listed ruleset is compared with a policy. */
module NftPolicy {
  import opened Wrappers
  import opened StableSorting

  datatype Value = Text(text: string) | Number(number: int)

  datatype Op = Equal | NotEqual | In

  datatype Expr =
    | MetaMatch(op: Op, key: string, value: Value)
    | PayloadMatch(op: Op, protocol: string, field: string, value: Value)
    | StateMatch(op: Op, states: seq<string>)
    | CounterRef(counter: string)
    | Accept
    | Drop
    | Return
    | Jump(target: string)
    | Goto(target: string)
    | Unknown(text: string)

  datatype Case = Case(
    family: string, source: string, address: string, transport: string, port: int, permitted: bool)

  /** A field that may be absent or may hold something other than an integer. */
  datatype Reading = Whole(n: int) | Mistyped(text: string) | Absent

  datatype TableRow = TableRow(family: string, name: string, handle: Reading, rest: map<string, string>)

  datatype ChainRow = ChainRow(
    family: string, table: string, name: string, hook: Option<string>, policy: Option<string>,
    handle: Reading, rest: map<string, string>)

  datatype CounterRow = CounterRow(
    family: string, table: string, name: string, packets: Reading, bytes: Reading,
    handle: Reading, rest: map<string, string>)

  datatype RuleRow = RuleRow(
    family: string, table: string, chain: string, expr: seq<Expr>, handle: Reading, rest: map<string, string>)

  /** One entry of a listing; Foreign is an entry of another kind or with several keys. */
  datatype Item =
    | Metainfo(version: Option<int>)
    | Table(table: TableRow)
    | Chain(chain: ChainRow)
    | Counter(counter: CounterRow)
    | Rule(rule: RuleRow)
    | Foreign(single: bool, kind: string, text: string, mark: Reading)

  datatype PolicyError =
    | UnsupportedPolicy | SchemaUnsupported | ObjectInvalid | ObjectUnexpected
    | CounterInvalid | HandlesRequired | FieldMissing

  datatype Shape = Shape(
    tables: seq<TableRow>, chains: seq<ChainRow>, counters: seq<CounterRow>, rules: seq<RuleRow>)

  const TargetTable: string := "zippy_oms_staging"
  const PeerTable: string := "zippy_m7_synthetic_peer"

  function FamilyCases(family: string, source: string, allowed: string, denied: string): seq<Case> {
    [Case(family, source, allowed, "tcp", 443, true),
     Case(family, source, allowed, "tcp", 53, true),
     Case(family, source, allowed, "udp", 53, true),
     Case(family, source, denied, "tcp", 443, false),
     Case(family, source, denied, "tcp", 53, false),
     Case(family, source, denied, "udp", 53, false),
     Case(family, source, allowed, "tcp", 5432, false)]
  }

  function Cases(): (cs: seq<Case>)
    ensures |cs| == 14
  {
    FamilyCases("ipv4", "192.0.2.1", "192.0.2.2", "192.0.2.3")
    + FamilyCases("ipv6", "2001:db8:7::1", "2001:db8:7::2", "2001:db8:7::3")
  }

  function Network(c: Case): string {
    if c.family == "ipv4" then "ip" else "ip6"
  }

  function Selector(c: Case): seq<Expr> {
    [MetaMatch(Equal, "nfproto", Text(c.family)),
     PayloadMatch(Equal, Network(c), "saddr", Text(c.source)),
     PayloadMatch(Equal, Network(c), "daddr", Text(c.address)),
     MetaMatch(Equal, "l4proto", Text(c.transport)),
     PayloadMatch(Equal, c.transport, "dport", Number(c.port))]
  }

  function Digit(n: nat): string
    requires n < 10
  {
    [['0', '1', '2', '3', '4', '5', '6', '7', '8', '9'][n]]
  }

  function Label(i: nat): string
    requires i < 100
  {
    Digit(i / 10) + Digit(i % 10)
  }

  function CounterName(i: nat): string
    requires i < 100
  {
    "m7_" + Label(i)
  }

  function PolicyTable(phase: string): string {
    if phase == "peer" then PeerTable else TargetTable
  }

  function CaseChain(phase: string): string {
    if phase == "peer" then "input" else "output"
  }

  function ReplyChain(phase: string): string {
    if phase == "peer" then "output" else "input"
  }

  const Replies: seq<Expr> := [StateMatch(In, ["established", "related"]), Accept]

  function CaseVerdict(phase: string, c: Case): Expr {
    if phase != "restricted" || c.permitted then Accept else Drop
  }

  function CaseCounter(phase: string, i: nat): CounterRow
    requires i < 100
  {
    CounterRow("inet", PolicyTable(phase), CounterName(i), Whole(0), Whole(0), Absent, map[])
  }

  function CaseRule(phase: string, c: Case, i: nat): RuleRow
    requires i < 100
  {
    RuleRow("inet", PolicyTable(phase), CaseChain(phase),
            Selector(c) + [CounterRef(CounterName(i)), CaseVerdict(phase, c)],
            Absent, map["comment" := "M7 " + phase + " " + Label(i)])
  }

  function BaseChain(phase: string, name: string): ChainRow {
    ChainRow("inet", PolicyTable(phase), name, Some(name), Some("drop"), Absent,
             map["type" := "filter", "prio" := "0"])
  }

  function ReplyRule(phase: string): RuleRow {
    RuleRow("inet", PolicyTable(phase), ReplyChain(phase), Replies, Absent,
            map["comment" := "M7 synthetic replies only"])
  }

  function PolicyHead(phase: string): seq<Item> {
    [Table(TableRow("inet", PolicyTable(phase), Absent, map[])),
     Chain(BaseChain(phase, "input")), Chain(BaseChain(phase, "output")), Chain(BaseChain(phase, "forward")),
     Rule(ReplyRule(phase))]
  }

  /** The counter and the rule of every case from the i-th on. */
  function CaseItems(phase: string, cs: seq<Case>, i: nat): seq<Item>
    requires i <= |cs| <= 100
    decreases |cs| - i
  {
    if i == |cs| then []
    else [Counter(CaseCounter(phase, i)), Rule(CaseRule(phase, cs[i], i))] + CaseItems(phase, cs, i + 1)
  }

  predicate KnownPhase(phase: string) {
    phase == "calibration" || phase == "restricted" || phase == "peer"
  }

  function PolicyItems(phase: string): seq<Item> {
    PolicyHead(phase) + CaseItems(phase, Cases(), 0)
  }

  method Compile(phase: string, head: seq<Item>, cs: seq<Case>) returns (items: seq<Item>)
    requires |cs| <= 100
    ensures items == head + CaseItems(phase, cs, 0)
  {
    items := head;
    var i := 0;
    while i < |cs|
      invariant i <= |cs|
      invariant items + CaseItems(phase, cs, i) == head + CaseItems(phase, cs, 0)
    {
      var two := [Counter(CaseCounter(phase, i)), Rule(CaseRule(phase, cs[i], i))];
      assert items + (two + CaseItems(phase, cs, i + 1)) == (items + two) + CaseItems(phase, cs, i + 1);
      items := items + two;
      i := i + 1;
    }
    assert items + [] == items;
  }

  method Policy(phase: string) returns (r: Result<seq<Item>, PolicyError>)
    ensures r == if KnownPhase(phase) then Ok(PolicyItems(phase)) else Err(UnsupportedPolicy)
  {
    if !KnownPhase(phase) { return Err(UnsupportedPolicy); }
    var items := Compile(phase, PolicyHead(phase), Cases());
    return Ok(items);
  }

  /** The explicit family and transport guards of a case prefix are dropped, and the
      reply match is written as an equality; every other list is left alone. */
  function ExportFrom(cs: seq<Case>, es: seq<Expr>): seq<Expr> {
    if cs == [] then
      if es == Replies then [StateMatch(Equal, ["established", "related"]), Accept] else es
    else
      var prefix := Selector(cs[0]);
      if |es| >= 5 && es[..5] == prefix then [prefix[1], prefix[2], prefix[4]] + es[5..]
      else ExportFrom(cs[1..], es)
  }

  function Export(es: seq<Expr>): seq<Expr> {
    ExportFrom(Cases(), es)
  }

  function Collect<T>(pick: Item -> Option<T>, doc: seq<Item>): seq<T> {
    if doc == [] then []
    else (match pick(doc[0]) case Some(row) => [row] case None => []) + Collect(pick, doc[1..])
  }

  lemma {:induction false} CollectConcat<T>(pick: Item -> Option<T>, a: seq<Item>, b: seq<Item>)
    ensures Collect(pick, a + b) == Collect(pick, a) + Collect(pick, b)
  {
    if a == [] {
      assert a + b == b;
    } else {
      var ab := a + b;
      assert ab[0] == a[0] && ab[1..] == a[1..] + b;
      CollectConcat(pick, a[1..], b);
      var h := match pick(a[0]) case Some(row) => [row] case None => [];
      assert h + (Collect(pick, a[1..]) + Collect(pick, b)) == (h + Collect(pick, a[1..])) + Collect(pick, b);
    }
  }

  function CleanTable(t: TableRow): TableRow { t.(handle := Absent) }
  function CleanChain(c: ChainRow): ChainRow { c.(handle := Absent) }
  function CleanCounter(n: CounterRow): CounterRow { n.(handle := Absent, packets := Absent, bytes := Absent) }
  function CleanRule(r: RuleRow): RuleRow { r.(handle := Absent, expr := Export(r.expr)) }

  function PickTable(item: Item): Option<TableRow> {
    if item.Table? then Some(CleanTable(item.table)) else None
  }

  function PickChain(item: Item): Option<ChainRow> {
    if item.Chain? then Some(CleanChain(item.chain)) else None
  }

  function PickCounter(item: Item): Option<CounterRow> {
    if item.Counter? then Some(CleanCounter(item.counter)) else None
  }

  function PickRule(item: Item): Option<RuleRow> {
    if item.Rule? then Some(CleanRule(item.rule)) else None
  }

  function ItemFault(item: Item): Option<PolicyError> {
    match item
    case Metainfo(version) => if version != Some(1) then Some(SchemaUnsupported) else None
    case Foreign(single, _, _, _) => Some(if single then ObjectUnexpected else ObjectInvalid)
    case _ => None
  }

  /** The first refusal at or after the i-th entry. */
  function Fault(doc: seq<Item>, i: nat): Option<PolicyError>
    requires i <= |doc|
    decreases |doc| - i
  {
    if i == |doc| then None else if ItemFault(doc[i]).Some? then ItemFault(doc[i]) else Fault(doc, i + 1)
  }

  function ByTable(t: TableRow): string { t.name }
  function ByChain(c: ChainRow): string { c.name }
  function ByCounter(n: CounterRow): string { n.name }
  function ByRuleChain(r: RuleRow): string { r.chain }

  function ShapeOf(doc: seq<Item>): Result<Shape, PolicyError> {
    match Fault(doc, 0)
    case Some(e) => Err(e)
    case None => Ok(Shape(
      StableSort(ByTable, Collect(PickTable, doc)),
      StableSort(ByChain, Collect(PickChain, doc)),
      StableSort(ByCounter, Collect(PickCounter, doc)),
      StableSort(ByRuleChain, Collect(PickRule, doc))))
  }

  lemma CollectNext<T>(pick: Item -> Option<T>, doc: seq<Item>, i: nat)
    requires i < |doc|
    ensures Collect(pick, doc[..i + 1])
         == Collect(pick, doc[..i]) + (match pick(doc[i]) case Some(row) => [row] case None => [])
  {
    assert doc[..i + 1] == doc[..i] + [doc[i]];
    CollectConcat(pick, doc[..i], [doc[i]]);
    assert Collect(pick, [doc[i]][1..]) == [];
  }

  method PolicyShape(doc: seq<Item>) returns (r: Result<Shape, PolicyError>)
    ensures r == ShapeOf(doc)
  {
    var tables, chains, counters, rules := [], [], [], [];
    var i := 0;
    while i < |doc|
      invariant i <= |doc|
      invariant Fault(doc, 0) == Fault(doc, i)
      invariant tables == Collect(PickTable, doc[..i])
      invariant chains == Collect(PickChain, doc[..i])
      invariant counters == Collect(PickCounter, doc[..i])
      invariant rules == Collect(PickRule, doc[..i])
    {
      CollectNext(PickTable, doc, i);
      CollectNext(PickChain, doc, i);
      CollectNext(PickCounter, doc, i);
      CollectNext(PickRule, doc, i);
      match doc[i] {
        case Metainfo(version) => if version != Some(1) { return Err(SchemaUnsupported); }
        case Foreign(single, _, _, _) => return Err(if single then ObjectUnexpected else ObjectInvalid);
        case Table(t) => tables := tables + [CleanTable(t)];
        case Chain(c) => chains := chains + [CleanChain(c)];
        case Counter(n) => counters := counters + [CleanCounter(n)];
        case Rule(rule) => rules := rules + [CleanRule(rule)];
      }
      i := i + 1;
    }
    assert doc[..i] == doc;
    return Ok(Shape(StableSort(ByTable, tables), StableSort(ByChain, chains),
                    StableSort(ByCounter, counters), StableSort(ByRuleChain, rules)));
  }

  /** The same objects in the same order under every name. */
  ghost predicate SameByName<T(!new)>(key: T -> string, a: seq<T>, b: seq<T>) {
    forall name: string :: Filter(Named(key, name), a) == Filter(Named(key, name), b)
  }

  /** Shapes are equal exactly when every chain keeps its exported rules in order and
      the tables, chains and counters agree name by name: handles, counts, the order
      between names and the redundant guards are all that the normal form forgets. */
  lemma ShapeCanonical(d1: seq<Item>, d2: seq<Item>)
    requires ShapeOf(d1).Ok? && ShapeOf(d2).Ok?
    ensures ShapeOf(d1) == ShapeOf(d2)
       <==> && SameByName(ByTable, Collect(PickTable, d1), Collect(PickTable, d2))
            && SameByName(ByChain, Collect(PickChain, d1), Collect(PickChain, d2))
            && SameByName(ByCounter, Collect(PickCounter, d1), Collect(PickCounter, d2))
            && SameByName(ByRuleChain, Collect(PickRule, d1), Collect(PickRule, d2))
  {
    SortCanonical(ByTable, Collect(PickTable, d1), Collect(PickTable, d2));
    SortCanonical(ByChain, Collect(PickChain, d1), Collect(PickChain, d2));
    SortCanonical(ByCounter, Collect(PickCounter, d1), Collect(PickCounter, d2));
    SortCanonical(ByRuleChain, Collect(PickRule, d1), Collect(PickRule, d2));
  }

  lemma {:induction false} ExportFromCases(cs: seq<Case>, es: seq<Expr>)
    ensures ExportFrom(cs, es) == es
      || (ExportFrom(cs, es) != [] && ExportFrom(cs, es)[0].PayloadMatch?)
      || ExportFrom(cs, es) == [StateMatch(Equal, ["established", "related"]), Accept]
  {
    if cs != [] { ExportFromCases(cs[1..], es); }
  }

  lemma {:induction false} ExportFromFixed(cs: seq<Case>, es: seq<Expr>)
    requires es != [] && !es[0].MetaMatch? && es != Replies
    ensures ExportFrom(cs, es) == es
  {
    if cs != [] {
      assert |es| >= 5 ==> es[..5][0] == es[0];
      assert Selector(cs[0])[0].MetaMatch?;
      ExportFromFixed(cs[1..], es);
    }
  }

  /** A list that was exported once is left alone when it is exported again. */
  lemma ExportTwice(es: seq<Expr>)
    ensures Export(Export(es)) == Export(es)
  {
    ExportFromCases(Cases(), es);
    var once := Export(es);
    if once != es {
      assert once[0].PayloadMatch? || once[0] == StateMatch(Equal, ["established", "related"]);
      assert Replies[0] == StateMatch(In, ["established", "related"]);
      ExportFromFixed(Cases(), once);
    }
  }
}
