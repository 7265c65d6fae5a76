/** A decoder of canonical payload texts, and the canonical form it recovers. */
module PayloadDecoding {
  import opened Wrappers
  import opened Numerals
  import opened StableSorting
  import opened PayloadEncoding

  function HexValue(c: char): Option<nat> {
    if '0' <= c <= '9' then Some(c as int - '0' as int)
    else if 'a' <= c <= 'f' then Some(10 + (c as int - 'a' as int))
    else None
  }

  /** The character of a four-digit escape, when it is one. */
  function HexChar(s: string): Option<char>
    requires |s| == 4
  {
    var a, b, c, d := HexValue(s[0]), HexValue(s[1]), HexValue(s[2]), HexValue(s[3]);
    if a.None? || b.None? || c.None? || d.None? then None
    else
      var n := 0x1000 * a.value + 0x100 * b.value + 0x10 * c.value + d.value;
      if 0 <= n < 0xd800 then Some(n as char) else None
  }

  function Unescaped(c: char): Option<char> {
    match c
    case '\"' => Some('\"')
    case '\\' => Some('\\')
    case 'n' => Some('\n')
    case 'r' => Some('\r')
    case 't' => Some('\t')
    case 'b' => Some('\U{8}')
    case 'f' => Some('\U{c}')
    case _ => None
  }

  /** The characters up to the closing quote, and what follows it. */
  function ParseChars(s: string): (r: Option<(string, string)>)
    ensures r.Some? ==> |r.value.1| < |s|
  {
    if s == "" then None
    else if s[0] == '\"' then Some(("", s[1..]))
    else if s[0] != '\\' then Prefixed(s[0], ParseChars(s[1..]))
    else if |s| >= 2 && Unescaped(s[1]).Some? then Prefixed(Unescaped(s[1]).value, ParseChars(s[2..]))
    else if |s| >= 6 && s[1] == 'u' && HexChar(s[2..6]).Some? then Prefixed(HexChar(s[2..6]).value, ParseChars(s[6..]))
    else None
  }

  function Prefixed(c: char, r: Option<(string, string)>): Option<(string, string)> {
    if r.None? then None else Some(([c] + r.value.0, r.value.1))
  }

  /** What a numeral is read as: an integer when it has no point. */
  function NumberOf(x: string): Json {
    if Printed(x) && !Pointed(x) then Integer(IntegerOf(x)) else Float(Some(x))
  }

  function ParseNumber(s: string): (r: Option<(Json, string)>)
    ensures r.Some? ==> |r.value.1| < |s|
  {
    var k := NumeralLength(s);
    if k == 0 || !Printed(s[..k]) then None else Some((NumberOf(s[..k]), s[k..]))
  }

  function Literal(s: string, word: string, v: Json): (r: Option<(Json, string)>)
    requires word != ""
    ensures r.Some? ==> |r.value.1| < |s|
  {
    if word <= s then Some((v, s[|word|..])) else None
  }

  predicate StartsWith(s: string, c: char) {
    s != "" && s[0] == c
  }

  function ParseValue(s: string): (r: Option<(Json, string)>)
    ensures r.Some? ==> |r.value.1| < |s|
    decreases |s|, 0
  {
    if s == "" then None
    else match s[0]
         case 'n' => Literal(s, "null", Null)
         case 't' => Literal(s, "true", Boolean(true))
         case 'f' => Literal(s, "false", Boolean(false))
         case '\"' => (match ParseChars(s[1..]) case None => None case Some(p) => Some((Text(p.0), p.1)))
         case '[' =>
           if StartsWith(s[1..], ']') then Some((List([]), s[2..]))
           else (match ParseItems(s[1..]) case None => None case Some(p) => Some((List(p.0), p.1)))
         case '{' =>
           if StartsWith(s[1..], '}') then Some((Object([]), s[2..]))
           else (match ParseMembers(s[1..]) case None => None case Some(p) => Some((Object(p.0), p.1)))
         case _ => ParseNumber(s)
  }

  function ParseItems(s: string): (r: Option<(seq<Json>, string)>)
    ensures r.Some? ==> |r.value.1| < |s|
    decreases |s|, 1
  {
    match ParseValue(s)
    case None => None
    case Some(p) =>
      if StartsWith(p.1, ']') then Some(([p.0], p.1[1..]))
      else if StartsWith(p.1, ',') && StartsWith(p.1[1..], ' ') then
        match ParseItems(p.1[2..])
        case None => None
        case Some(q) => Some(([p.0] + q.0, q.1))
      else None
  }

  function ParseMembers(s: string): (r: Option<(seq<Member>, string)>)
    ensures r.Some? ==> |r.value.1| < |s|
    decreases |s|, 1
  {
    if s == "" || s[0] != '\"' then None
    else match ParseChars(s[1..])
         case None => None
         case Some(k) =>
           if !(StartsWith(k.1, ':') && StartsWith(k.1[1..], ' ')) then None
           else match ParseValue(k.1[2..])
                case None => None
                case Some(p) =>
                  var m := Member(TextKey(k.0), p.0);
                  if StartsWith(p.1, '}') then Some(([m], p.1[1..]))
                  else if StartsWith(p.1, ',') && StartsWith(p.1[1..], ' ') then
                    match ParseMembers(p.1[2..])
                    case None => None
                    case Some(q) => Some(([m] + q.0, q.1))
                  else None
  }

  /** The value whose text this is. */
  function Decode(s: string): Option<Json> {
    match ParseValue(s)
    case Some(p) => if p.1 == "" then Some(p.0) else None
    case None => None
  }

  /** The value with the members of every object in canonical order. */
  function Normal(v: Json): Json {
    match v
    case List(items) => List(Normals(items))
    case Object(members) => Object(StableSort(ByMember, NormalMembers(members)))
    case _ => v
  }

  function Normals(items: seq<Json>): seq<Json> {
    if items == [] then [] else [Normal(items[0])] + Normals(items[1..])
  }

  function NormalMembers(members: seq<Member>): seq<Member> {
    if members == [] then [] else [NormalMember(members[0])] + NormalMembers(members[1..])
  }

  function NormalMember(m: Member): Member {
    Member(m.key, Normal(m.value))
  }

  function ByMember(m: Member): string {
    SortText(KeyText(m.key))
  }

  /** Built from null, booleans, integers, strings, lists, string-keyed objects and floats
      whose numerals no integer shares. */
  predicate Exact(v: Json) {
    match v
    case Foreign => false
    case Float(numeral) => numeral.Some? && Printed(numeral.value) && Pointed(numeral.value)
    case List(items) => forall i | 0 <= i < |items| :: Exact(items[i])
    case Object(members) => forall i | 0 <= i < |members| :: members[i].key.TextKey? && Exact(members[i].value)
    case _ => true
  }

  lemma {:induction false} ExactEncodable(v: Json)
    requires Exact(v)
    ensures Encodable(v)
  {
    match v {
      case List(items) => forall i | 0 <= i < |items| ensures Encodable(items[i]) { ExactEncodable(items[i]); }
      case Object(members) =>
        forall i | 0 <= i < |members| ensures Encodable(members[i].value) { ExactEncodable(members[i].value); }
      case _ =>
    }
  }

  lemma HexOf(n: nat)
    requires n < 0x20
    ensures HexChar("00" + [Hex(n / 16), Hex(n % 16)]) == Some(n as char)
  {
    assert HexValue(Hex(n / 16)) == Some(n / 16);
    assert HexValue(Hex(n % 16)) == Some(n % 16);
  }

  lemma ShortTrip(e: char, r: string)
    requires Unescaped(e).Some?
    ensures ParseChars(['\\', e] + r) == Prefixed(Unescaped(e).value, ParseChars(r))
  {
    var s := ['\\', e] + r;
    assert s[0] == '\\' && s[1] == e && s[2..] == r;
  }

  lemma HexTrip(n: nat, r: string)
    requires n < 0x20
    ensures ParseChars("\\u00" + [Hex(n / 16), Hex(n % 16)] + r) == Prefixed(n as char, ParseChars(r))
  {
    var s := "\\u00" + [Hex(n / 16), Hex(n % 16)] + r;
    HexOf(n);
    assert s[0] == '\\' && s[1] == 'u' && s[6..] == r;
    assert s[2..6] == "00" + [Hex(n / 16), Hex(n % 16)];
    assert Unescaped('u').None?;
  }

  lemma PlainTrip(c: char, r: string)
    requires c != '\"' && c != '\\'
    ensures ParseChars([c] + r) == Prefixed(c, ParseChars(r))
  {
    assert ([c] + r)[0] == c && ([c] + r)[1..] == r;
  }

  lemma EscapeTrip(c: char, r: string)
    ensures ParseChars(Escape(c) + r) == Prefixed(c, ParseChars(r))
  {
    if Escape(c) == [c] {
      PlainTrip(c, r);
    } else if |Escape(c)| == 2 {
      var e := Escape(c)[1];
      assert Escape(c) == ['\\', e] && Unescaped(e) == Some(c);
      ShortTrip(e, r);
    } else {
      HexTrip(c as int, r);
    }
  }

  lemma {:induction false} StringTrip(t: string, r: string)
    ensures ParseChars(Escaped(t) + "\"" + r) == Some((t, r))
  {
    if t == "" {
      assert Escaped(t) + "\"" + r == "\"" + r;
    } else {
      var tail := Escaped(t[1..]) + "\"" + r;
      StringTrip(t[1..], r);
      EscapeTrip(t[0], tail);
      assert Escaped(t) + "\"" + r == Escape(t[0]) + tail;
      assert t == [t[0]] + t[1..];
    }
  }

  /** What may follow a value: nothing that could continue a numeral. */
  predicate Ends(r: string) {
    EndsNumeral(r)
  }

  predicate Reads(v: Json, r: string) {
    ParseValue(TextOf(v) + r) == Some((Normal(v), r))
  }

  lemma PrintedStart(x: string)
    requires Printed(x)
    ensures x != "" && (IsDigit(x[0]) || x[0] == '-')
  {
    assert Unsigned(x) == x ==> IsDigit(x[0]);
  }

  lemma NumberTrip(x: string, r: string)
    requires Printed(x) && Ends(r)
    ensures ParseNumber(x + r) == Some((NumberOf(x), r))
  {
    PrintedStart(x);
    NumeralTrip(x, r);
    assert (x + r)[..|x|] == x && (x + r)[|x|..] == r;
  }

  lemma NumberValue(x: string, r: string)
    requires Printed(x) && Ends(r)
    ensures ParseValue(x + r) == Some((NumberOf(x), r))
  {
    PrintedStart(x);
    assert (x + r)[0] == x[0];
    NumberTrip(x, r);
  }

  lemma IntegerTrip(n: int, r: string)
    requires Ends(r)
    ensures Reads(Integer(n), r)
  {
    DecimalRead(n);
    NumberValue(Decimal(n), r);
  }

  lemma FloatTrip(x: string, r: string)
    requires Printed(x) && Pointed(x) && Ends(r)
    ensures Reads(Float(Some(x)), r)
  {
    NumberValue(x, r);
  }

  lemma QuoteSplit(a: string, r: string)
    ensures var s := "\"" + a + "\"" + r; s[0] == '\"' && s[1..] == a + "\"" + r
  {
  }

  lemma QuotedTrip(t: string, r: string)
    ensures Reads(Text(t), r)
  {
    StringTrip(t, r);
    QuoteSplit(Escaped(t), r);
  }

  lemma LiteralTrip(v: Json, r: string)
    requires v.Null? || v.Boolean?
    ensures Reads(v, r)
  {
    var word := TextOf(v);
    assert word <= word + r && (word + r)[|word|..] == r && (word + r)[0] == word[0];
  }

  /** The text of a value is never empty and never looks like a closing bracket. */
  lemma TextStart(v: Json)
    requires Exact(v)
    ensures TextOf(v) != "" && TextOf(v)[0] != ']'
  {
    if v.Integer? {
      DecimalRead(v.n);
      PrintedStart(Decimal(v.n));
    } else if v.Float? {
      PrintedStart(v.numeral.value);
    }
  }

  lemma ItemsLast(v: Json, rest: string)
    requires Reads(v, "]" + rest)
    ensures ParseItems(TextOf(v) + ("]" + rest)) == Some(([Normal(v)], rest))
  {
    assert ("]" + rest)[0] == ']' && ("]" + rest)[1..] == rest;
  }

  lemma ItemsStep(v: Json, more: string, items: seq<Json>, rest: string)
    requires Reads(v, ", " + more) && ParseItems(more) == Some((items, rest))
    ensures ParseItems(TextOf(v) + (", " + more)) == Some(([Normal(v)] + items, rest))
  {
    var tail := ", " + more;
    assert tail[0] == ',' && tail[1..][0] == ' ' && tail[2..] == more;
  }

  lemma JoinedMore(first: string, others: seq<string>, end: string)
    ensures Joined([first] + others) + end
         == if others == [] then first + end else first + (", " + (Joined(others) + end))
  {
    if others == [] {
      assert [first] + others == [first];
    } else {
      assert ([first] + others)[1..] == others;
      assert Joined([first] + others) == first + ", " + Joined(others);
    }
  }

  lemma {:induction false} ItemsCons(items: seq<Json>)
    requires items != []
    ensures TextsOf(items) == [TextOf(items[0])] + TextsOf(items[1..])
    ensures Normals(items) == [Normal(items[0])] + Normals(items[1..])
    ensures |items| == 1 ==> TextsOf(items[1..]) == [] && Normals(items) == [Normal(items[0])]
    ensures |items| > 1 ==> TextsOf(items[1..]) != []
  {
    if |items| == 1 { assert items[1..] == []; }
  }

  lemma {:induction false} ItemsTrip(items: seq<Json>, rest: string)
    requires items != [] && forall i, r | 0 <= i < |items| && Ends(r) :: Reads(items[i], r)
    ensures ParseItems(Joined(TextsOf(items)) + ("]" + rest)) == Some((Normals(items), rest))
  {
    ItemsCons(items);
    JoinedMore(TextOf(items[0]), TextsOf(items[1..]), "]" + rest);
    if |items| == 1 {
      assert Ends("]" + rest);
      ItemsLast(items[0], rest);
    } else {
      var others := items[1..];
      var more := Joined(TextsOf(others)) + ("]" + rest);
      assert Reads(items[0], ", " + more) by { assert Ends(", " + more); }
      assert forall i | 0 <= i < |others| :: others[i] == items[i + 1];
      ItemsTrip(others, rest);
      ItemsStep(items[0], more, Normals(others), rest);
    }
  }

  lemma Regroup(a: string, t: string, tail: string)
    ensures var s := "\"" + a + "\"" + ": " + t + tail;
            && StartsWith(s, '\"') && s[1..] == a + "\"" + (": " + (t + tail))
            && (": " + (t + tail))[2..] == t + tail
  {
  }

  lemma KeyTrip(k: string, v: Json, tail: string)
    ensures var s := Quoted(k) + ": " + TextOf(v) + tail;
            && StartsWith(s, '\"')
            && ParseChars(s[1..]) == Some((k, ": " + (TextOf(v) + tail)))
            && (": " + (TextOf(v) + tail))[2..] == TextOf(v) + tail
  {
    Regroup(Escaped(k), TextOf(v), tail);
    StringTrip(k, ": " + (TextOf(v) + tail));
  }

  lemma MembersLast(k: string, v: Json, rest: string)
    requires Reads(v, "}" + rest)
    ensures ParseMembers(Quoted(k) + ": " + TextOf(v) + ("}" + rest)) == Some(([Member(TextKey(k), Normal(v))], rest))
  {
    var tail := "}" + rest;
    KeyTrip(k, v, tail);
    assert ParseValue(TextOf(v) + tail) == Some((Normal(v), tail));
    assert tail[0] == '}' && tail[1..] == rest;
  }

  lemma CommaTail(more: string)
    ensures var tail := ", " + more; tail[0] == ',' && tail[1..][0] == ' ' && tail[2..] == more
  {
  }

  lemma MembersStep(k: string, v: Json, more: string, members: seq<Member>, rest: string)
    requires Reads(v, ", " + more) && ParseMembers(more) == Some((members, rest))
    ensures ParseMembers(Quoted(k) + ": " + TextOf(v) + (", " + more))
         == Some(([Member(TextKey(k), Normal(v))] + members, rest))
  {
    KeyTrip(k, v, ", " + more);
    CommaTail(more);
  }

  lemma {:induction false} TextsCons(members: seq<Member>)
    requires members != [] && members[0].key.TextKey?
    ensures MemberTexts(MembersOf(members))
         == [Quoted(members[0].key.text) + ": " + TextOf(members[0].value)] + MemberTexts(MembersOf(members[1..]))
    ensures MemberTexts(MembersOf(members[1..])) == [] <==> |members| == 1
    ensures NormalMembers(members) == [NormalMember(members[0])] + NormalMembers(members[1..])
    ensures |members| == 1 ==> NormalMembers(members) == [NormalMember(members[0])]
  {
    if |members| == 1 { assert members[1..] == []; }
    assert MembersOf(members)[1..] == MembersOf(members[1..]);
    assert |members| > 1 ==> |MembersOf(members[1..])| >= 1;
  }

  ghost predicate MembersRead(members: seq<Member>) {
    forall i, r | 0 <= i < |members| && Ends(r) :: Reads(members[i].value, r)
  }

  lemma {:induction false} MembersTrip(members: seq<Member>, rest: string)
    requires members != [] && (forall i | 0 <= i < |members| :: members[i].key.TextKey?) && MembersRead(members)
    ensures ParseMembers(Joined(MemberTexts(MembersOf(members))) + ("}" + rest)) == Some((NormalMembers(members), rest))
  {
    var k, v := members[0].key.text, members[0].value;
    var others := MemberTexts(MembersOf(members[1..]));
    var more := Joined(others) + ("}" + rest);
    assert Ends("}" + rest) && Ends(", " + more);
    assert Reads(v, "}" + rest) && Reads(v, ", " + more);
    TextsCons(members);
    JoinedMore(Quoted(k) + ": " + TextOf(v), others, "}" + rest);
    if |members| == 1 {
      MembersLast(k, v, rest);
    } else {
      assert MembersRead(members[1..]);
      MembersTrip(members[1..], rest);
      MembersStep(k, v, more, NormalMembers(members[1..]), rest);
    }
  }

  lemma {:induction false} MembersAsMap(members: seq<Member>)
    ensures MembersOf(members) == Mapped(MemberOf, members) && NormalMembers(members) == Mapped(NormalMember, members)
  {
    if members != [] { MembersAsMap(members[1..]); }
  }

  /** Sorting the texts, the normal members or the members themselves gives one order. */
  lemma SortedTogether(members: seq<Member>)
    ensures StableSort(ByKey(), MembersOf(members)) == MembersOf(StableSort(ByMember, members))
    ensures StableSort(ByMember, NormalMembers(members)) == NormalMembers(StableSort(ByMember, members))
  {
    MembersAsMap(members);
    MembersAsMap(StableSort(ByMember, members));
    SortMapped(ByMember, ByKey(), MemberOf, members);
    SortMapped(ByMember, ByMember, NormalMember, members);
  }

  lemma SortedRead(members: seq<Member>)
    requires MembersRead(members) && forall i | 0 <= i < |members| :: members[i].key.TextKey?
    ensures var sorted := StableSort(ByMember, members);
            && MembersRead(sorted) && (forall i | 0 <= i < |sorted| :: sorted[i].key.TextKey?)
            && (sorted == [] <==> members == [])
  {
    var sorted := StableSort(ByMember, members);
    assert |sorted| == |multiset(sorted)| == |multiset(members)| == |members|;
    forall i, r | 0 <= i < |sorted| && Ends(r) ensures Reads(sorted[i].value, r) {
      assert sorted[i] in multiset(members);
      var j :| 0 <= j < |members| && members[j] == sorted[i];
      assert Reads(members[j].value, r);
    }
    forall i | 0 <= i < |sorted| ensures sorted[i].key.TextKey? { assert sorted[i] in multiset(members); }
  }

  lemma Wrapped(open: char, body: string, close: char, rest: string)
    requires body != ""
    ensures var s := [open] + body + [close] + rest;
            s[0] == open && s[1..] == body + ([close] + rest) && s[1..][0] == body[0]
  {
  }

  /** A nonempty body between braces or brackets is handed to the parser of its parts. */
  lemma OpenObject(body: string, members: seq<Member>, rest: string)
    requires StartsWith(body, '\"') && ParseMembers(body + ("}" + rest)) == Some((members, rest))
    ensures ParseValue("{" + body + "}" + rest) == Some((Object(members), rest))
  {
    Wrapped('{', body, '}', rest);
    assert "{" == ['{'] && "}" == ['}'];
  }

  lemma OpenList(body: string, items: seq<Json>, rest: string)
    requires body != "" && body[0] != ']' && ParseItems(body + ("]" + rest)) == Some((items, rest))
    ensures ParseValue("[" + body + "]" + rest) == Some((List(items), rest))
  {
    Wrapped('[', body, ']', rest);
    assert "[" == ['['] && "]" == [']'];
  }

  lemma EmptyTrips(rest: string)
    ensures ParseValue("{}" + rest) == Some((Object([]), rest)) && ParseValue("[]" + rest) == Some((List([]), rest))
  {
    assert ("{}" + rest)[1..][0] == '}' && ("{}" + rest)[2..] == rest;
    assert ("[]" + rest)[1..][0] == ']' && ("[]" + rest)[2..] == rest;
  }

  lemma {:induction false} ObjectText(members: seq<Member>)
    ensures var sorted := StableSort(ByMember, members);
            && TextOf(Object(members)) == "{" + Joined(MemberTexts(MembersOf(sorted))) + "}"
            && Normal(Object(members)) == Object(NormalMembers(sorted))
  {
    var sorted := StableSort(ByMember, members);
    SortedTogether(members);
    assert StableSort(ByKey(), MembersOf(members)) == MembersOf(sorted);
    assert StableSort(ByMember, NormalMembers(members)) == NormalMembers(sorted);
  }

  lemma SortedTrip(sorted: seq<Member>, rest: string)
    requires MembersRead(sorted) && forall i | 0 <= i < |sorted| :: sorted[i].key.TextKey?
    ensures ParseValue("{" + Joined(MemberTexts(MembersOf(sorted))) + "}" + rest)
         == Some((Object(NormalMembers(sorted)), rest))
  {
    if sorted == [] {
      EmptyTrips(rest);
      assert "{" + "" + "}" + rest == "{}" + rest;
    } else {
      MembersTrip(sorted, rest);
      MembersStart(sorted);
      OpenObject(Joined(MemberTexts(MembersOf(sorted))), NormalMembers(sorted), rest);
    }
  }

  lemma ObjectTrip(members: seq<Member>, rest: string)
    requires MembersRead(members) && forall i | 0 <= i < |members| :: members[i].key.TextKey?
    ensures Reads(Object(members), rest)
  {
    ObjectText(members);
    SortedRead(members);
    SortedTrip(StableSort(ByMember, members), rest);
  }

  lemma {:induction false} MembersStart(members: seq<Member>)
    requires members != [] && members[0].key.TextKey?
    ensures StartsWith(Joined(MemberTexts(MembersOf(members))), '\"')
  {
    TextsCons(members);
  }

  lemma {:induction false} ItemsStart(items: seq<Json>)
    requires items != [] && Exact(items[0])
    ensures var body := Joined(TextsOf(items)); body != "" && body[0] != ']'
  {
    ItemsCons(items);
    TextStart(items[0]);
    JoinedMore(TextOf(items[0]), TextsOf(items[1..]), "");
    assert Joined(TextsOf(items)) + "" == Joined(TextsOf(items));
  }

  lemma ListTrip(items: seq<Json>, rest: string)
    requires forall i, r | 0 <= i < |items| && Ends(r) :: Reads(items[i], r)
    requires forall i | 0 <= i < |items| :: Exact(items[i])
    ensures Reads(List(items), rest)
  {
    if items == [] {
      EmptyTrips(rest);
      assert TextOf(List(items)) == "[]" && Normal(List(items)) == List([]);
    } else {
      ItemsTrip(items, rest);
      ItemsStart(items);
      OpenList(Joined(TextsOf(items)), Normals(items), rest);
    }
  }

  /** The decoder reads back the canonical form of every exact value. */
  lemma {:induction false} ReadsBack(v: Json, rest: string)
    requires Exact(v) && Ends(rest)
    ensures Reads(v, rest)
  {
    match v {
      case Null => LiteralTrip(v, rest);
      case Boolean(_) => LiteralTrip(v, rest);
      case Integer(n) => IntegerTrip(n, rest);
      case Text(s) => QuotedTrip(s, rest);
      case Float(numeral) => FloatTrip(numeral.value, rest);
      case List(items) =>
        forall i, r | 0 <= i < |items| && Ends(r) ensures Reads(items[i], r) { ReadsBack(items[i], r); }
        ListTrip(items, rest);
      case Object(members) =>
        forall i, r | 0 <= i < |members| && Ends(r) ensures Reads(members[i].value, r) { ReadsBack(members[i].value, r); }
        ObjectTrip(members, rest);
    }
  }

  lemma DecodesNormal(v: Json)
    requires Exact(v)
    ensures Encode(v).Ok? && Decode(Encode(v).value) == Some(Normal(v))
  {
    ExactEncodable(v);
    EncodeOutcome(v);
    ReadsBack(v, "");
    assert TextOf(v) + "" == TextOf(v);
  }
}
