/** The canonical text of a governance payload: keys by UTF-8 length and bytes, spaced
    separators, string escapes of section 7 of RFC 8259. */
module PayloadEncoding {
  import opened Wrappers
  import opened Numerals
  import opened StableSorting

  /** A key of an object, which may be something other than a string. */
  datatype Key = TextKey(text: string) | OtherKey

  /** A value as handed to the encoder. A float is its exact decimal text, or None when
      it is not finite; Foreign is a value of any other type. Members keep insertion order. */
  datatype Json =
    | Null
    | Boolean(value: bool)
    | Integer(n: int)
    | Text(s: string)
    | Float(numeral: Option<string>)
    | List(items: seq<Json>)
    | Object(members: seq<Member>)
    | Foreign

  datatype Member = Member(key: Key, value: Json)

  type Byte = x: int | 0 <= x < 256

  function Utf8Char(c: char): (bytes: seq<Byte>)
    ensures 1 <= |bytes| <= 4
  {
    var n := c as int;
    if n < 0x80 then [n]
    else if n < 0x800 then [0xc0 + n / 0x40, 0x80 + n % 0x40]
    else if n < 0x10000 then [0xe0 + n / 0x1000, 0x80 + n / 0x40 % 0x40, 0x80 + n % 0x40]
    else [0xf0 + n / 0x40000, 0x80 + n / 0x1000 % 0x40, 0x80 + n / 0x40 % 0x40, 0x80 + n % 0x40]
  }

  /** The UTF-8 bytes of a string, each as the character of that code. */
  function Utf8(s: string): string {
    if s == "" then "" else ByteChars(Utf8Char(s[0])) + Utf8(s[1..])
  }

  function ByteChars(bytes: seq<Byte>): string {
    seq(|bytes|, i requires 0 <= i < |bytes| => bytes[i] as char)
  }

  /** A text that orders keys by byte length first and by bytes second. */
  function SortText(key: string): string {
    seq(|Utf8(key)|, _ => '\U{1}') + "\0" + Utf8(key)
  }

  function ByKey<V>(): ((string, V)) -> string {
    (m: (string, V)) => SortText(m.0)
  }

  function Hex(n: nat): char
    requires n < 16
  {
    "0123456789abcdef"[n]
  }

  function Escape(c: char): string {
    if c == '\"' then "\\\""
    else if c == '\\' then "\\\\"
    else if c == '\n' then "\\n"
    else if c == '\r' then "\\r"
    else if c == '\t' then "\\t"
    else if c == '\U{8}' then "\\b"
    else if c == '\U{c}' then "\\f"
    else if c as int < 0x20 then "\\u00" + [Hex(c as int / 16), Hex(c as int % 16)]
    else [c]
  }

  function Escaped(s: string): string {
    if s == "" then "" else Escape(s[0]) + Escaped(s[1..])
  }

  function Quoted(s: string): string {
    "\"" + Escaped(s) + "\""
  }

  function Joined(parts: seq<string>): string {
    if parts == [] then "" else if |parts| == 1 then parts[0] else parts[0] + ", " + Joined(parts[1..])
  }

  function MemberTexts(members: seq<(string, string)>): seq<string> {
    if members == [] then [] else [Quoted(members[0].0) + ": " + members[0].1] + MemberTexts(members[1..])
  }

  /** Everything in the value is of a type the encoder accepts. */
  predicate Encodable(v: Json) {
    match v
    case Foreign => false
    case Float(numeral) => numeral.Some?
    case List(items) => forall i | 0 <= i < |items| :: Encodable(items[i])
    case Object(members) => forall i | 0 <= i < |members| :: members[i].key.TextKey? && Encodable(members[i].value)
    case _ => true
  }

  function KeyText(k: Key): string {
    if k.TextKey? then k.text else ""
  }

  /** The text of a value; the last cases are never reached for an encodable value. */
  function TextOf(v: Json): string {
    match v
    case Null => "null"
    case Boolean(b) => if b then "true" else "false"
    case Integer(n) => Decimal(n)
    case Text(s) => Quoted(s)
    case Float(numeral) => if numeral.Some? then numeral.value else ""
    case List(items) => "[" + Joined(TextsOf(items)) + "]"
    case Object(members) => "{" + Joined(MemberTexts(StableSort(ByKey(), MembersOf(members)))) + "}"
    case Foreign => ""
  }

  function TextsOf(items: seq<Json>): seq<string> {
    if items == [] then [] else [TextOf(items[0])] + TextsOf(items[1..])
  }

  function MembersOf(members: seq<Member>): seq<(string, string)> {
    if members == [] then [] else [MemberOf(members[0])] + MembersOf(members[1..])
  }

  function MemberOf(m: Member): (string, string) {
    (KeyText(m.key), TextOf(m.value))
  }

  datatype Denied = PayloadInvalid

  /** The encoder. It refuses a value as soon as it meets a part it has no text for. */
  function Encode(v: Json): Result<string, Denied> {
    match v
    case Foreign => Err(PayloadInvalid)
    case Float(numeral) => if numeral.Some? then Ok(numeral.value) else Err(PayloadInvalid)
    case List(items) => Braced('[', EncodeItems(items), ']')
    case Object(members) =>
      if exists i | 0 <= i < |members| :: members[i].key.OtherKey? then Err(PayloadInvalid)
      else
        (match EncodeMembers(members)
         case Err(denied) => Err(denied)
         case Ok(pairs) => Braced('{', Ok(MemberTexts(StableSort(ByKey(), pairs))), '}'))
    case _ => Ok(TextOf(v))
  }

  function Braced(open: char, parts: Result<seq<string>, Denied>, close: char): Result<string, Denied> {
    match parts
    case Err(denied) => Err(denied)
    case Ok(texts) => Ok([open] + Joined(texts) + [close])
  }

  function EncodeItems(items: seq<Json>): Result<seq<string>, Denied> {
    if items == [] then Ok([])
    else
      match Encode(items[0])
      case Err(denied) => Err(denied)
      case Ok(text) =>
        match EncodeItems(items[1..])
        case Err(denied) => Err(denied)
        case Ok(texts) => Ok([text] + texts)
  }

  function EncodeMembers(members: seq<Member>): Result<seq<(string, string)>, Denied> {
    if members == [] then Ok([])
    else
      match EncodeMember(members[0])
      case Err(denied) => Err(denied)
      case Ok(pair) =>
        match EncodeMembers(members[1..])
        case Err(denied) => Err(denied)
        case Ok(pairs) => Ok([pair] + pairs)
  }

  function EncodeMember(m: Member): Result<(string, string), Denied> {
    match Encode(m.value)
    case Err(denied) => Err(denied)
    case Ok(text) => Ok((KeyText(m.key), text))
  }

  predicate Outcome(v: Json) {
    Encode(v) == if Encodable(v) then Ok(TextOf(v)) else Err(PayloadInvalid)
  }

  lemma {:induction false} ItemsOutcome(items: seq<Json>)
    requires forall i | 0 <= i < |items| :: Outcome(items[i])
    ensures EncodeItems(items)
         == if forall i | 0 <= i < |items| :: Encodable(items[i]) then Ok(TextsOf(items)) else Err(PayloadInvalid)
  {
    if items != [] {
      assert Outcome(items[0]);
      ItemsOutcome(items[1..]);
      if forall i | 0 <= i < |items[1..]| :: Encodable(items[1..][i]) {
        assert forall i | 0 < i < |items| :: Encodable(items[i]) by {
          assert forall i | 0 < i < |items| :: items[i] == items[1..][i - 1];
        }
      }
    }
  }

  lemma {:induction false} MembersOutcome(members: seq<Member>)
    requires forall i | 0 <= i < |members| :: Outcome(members[i].value)
    ensures EncodeMembers(members)
         == if forall i | 0 <= i < |members| :: Encodable(members[i].value) then Ok(MembersOf(members))
            else Err(PayloadInvalid)
  {
    if members != [] {
      assert Outcome(members[0].value);
      MembersOutcome(members[1..]);
      if forall i | 0 <= i < |members[1..]| :: Encodable(members[1..][i].value) {
        assert forall i | 0 < i < |members| :: Encodable(members[i].value) by {
          assert forall i | 0 < i < |members| :: members[i] == members[1..][i - 1];
        }
      }
    }
  }

  /** The encoder gives the text of exactly the encodable values. */
  lemma {:induction false} EncodeOutcome(v: Json)
    ensures Outcome(v)
  {
    match v
    case List(items) =>
      forall i | 0 <= i < |items| ensures Outcome(items[i]) { EncodeOutcome(items[i]); }
      ItemsOutcome(items);
    case Object(members) =>
      forall i | 0 <= i < |members| ensures Outcome(members[i].value) { EncodeOutcome(members[i].value); }
      MembersOutcome(members);
    case _ =>
  }

  /** Bytes are compared by length and then in order: the order of the sort text. */
  lemma SortTextOrder(a: string, b: string)
    ensures Before(SortText(a), SortText(b))
       <==> |Utf8(a)| < |Utf8(b)| || (|Utf8(a)| == |Utf8(b)| && Before(Utf8(a), Utf8(b)))
  {
    UnaryFirst(|Utf8(a)|, |Utf8(b)|, Utf8(a), Utf8(b));
  }

  lemma {:induction false} UnaryFirst(m: nat, n: nat, a: string, b: string)
    ensures Before(seq(m, _ => '\U{1}') + "\0" + a, seq(n, _ => '\U{1}') + "\0" + b) <==> m < n || (m == n && Before(a, b))
  {
    var s, t := seq(m, _ => '\U{1}') + "\0" + a, seq(n, _ => '\U{1}') + "\0" + b;
    if m == 0 || n == 0 {
      if m == 0 { assert s[0] == '\0' && s[1..] == a; } else { assert s[0] == '\U{1}'; }
      if n == 0 { assert t[0] == '\0' && t[1..] == b; } else { assert t[0] == '\U{1}'; }
    } else {
      assert s[0] == t[0] == '\U{1}';
      assert s[1..] == seq(m - 1, _ => '\U{1}') + "\0" + a;
      assert t[1..] == seq(n - 1, _ => '\U{1}') + "\0" + b;
      UnaryFirst(m - 1, n - 1, a, b);
    }
  }

  /** The code point a lead byte and its continuation bytes stand for. */
  function CodePoint(b: seq<Byte>): int
    requires 1 <= |b| <= 4
  {
    var b0: int, last: int := b[0], b[|b| - 1];
    if |b| == 1 then b0
    else if |b| == 2 then (b0 - 0xc0) * 0x40 + (last - 0x80)
    else
      var b1: int := b[1];
      if |b| == 3 then (b0 - 0xe0) * 0x1000 + (b1 - 0x80) * 0x40 + (last - 0x80)
      else
        var b2: int := b[2];
        (b0 - 0xf0) * 0x40000 + (b1 - 0x80) * 0x1000 + (b2 - 0x80) * 0x40 + (last - 0x80)
  }

  lemma Utf8CharValue(c: char)
    ensures var b := Utf8Char(c);
            && (|b| == 1 <==> b[0] < 0x80) && (|b| == 2 <==> 0xc0 <= b[0] < 0xe0)
            && (|b| == 3 <==> 0xe0 <= b[0] < 0xf0) && (|b| == 4 <==> 0xf0 <= b[0])
            && CodePoint(b) == c as int
  {
    var n := c as int;
    assert n / 0x1000 == n / 0x40 / 0x40;
    assert n / 0x40000 == n / 0x1000 / 0x40;
  }

  lemma Utf8CharPrefix(c: char, d: char, r: string, q: string)
    requires ByteChars(Utf8Char(c)) + r == ByteChars(Utf8Char(d)) + q
    ensures c == d && r == q
  {
    var s, t := ByteChars(Utf8Char(c)) + r, ByteChars(Utf8Char(d)) + q;
    var a, b := Utf8Char(c), Utf8Char(d);
    Utf8CharValue(c);
    Utf8CharValue(d);
    assert s[0] as int == a[0] && t[0] as int == b[0];
    assert |a| == |b|;
    forall i | 0 <= i < |a| ensures a[i] == b[i] { assert s[i] as int == a[i] && t[i] as int == b[i]; }
    assert a == b;
    assert c as int == d as int;
    assert c == (c as int) as char == (d as int) as char == d;
    assert r == s[|a|..] && q == t[|b|..];
  }

  lemma Utf8Nonempty(s: string)
    ensures s != "" ==> Utf8(s) != ""
  {
    if s != "" { assert |ByteChars(Utf8Char(s[0]))| >= 1; }
  }

  /** Distinct keys have distinct bytes, so the order never ties. */
  lemma {:induction false} Utf8Injective(a: string, b: string)
    requires Utf8(a) == Utf8(b)
    ensures a == b
  {
    Utf8Nonempty(a);
    Utf8Nonempty(b);
    if a != "" && b != "" {
      Utf8CharPrefix(a[0], b[0], Utf8(a[1..]), Utf8(b[1..]));
      Utf8Injective(a[1..], b[1..]);
      assert a == [a[0]] + a[1..] && b == [b[0]] + b[1..];
    }
  }

  lemma SortTextInjective(a: string, b: string)
    requires SortText(a) == SortText(b)
    ensures a == b
  {
    SortTextOrder(a, b);
    SortTextOrder(b, a);
    BeforeStrict(SortText(a), SortText(b));
    BeforeStrict(Utf8(a), Utf8(b));
    Utf8Injective(a, b);
  }
}
