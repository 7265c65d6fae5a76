/** The JSON text of an envelope document: compact, with sorted keys and escapes for
    everything outside printable ASCII, and its reading (sections 6 and 7 of RFC 8259). */
module EnvelopeJson {
  import opened Wrappers
  import opened Numerals
  import opened PayloadEncoding
  import opened PayloadDecoding
  import Base64Url

  datatype Field = Quote(text: string) | Whole(n: int) | Nothing

  type Document = map<string, Field>

  // ------------------------------------------------------------- strings

  function Hex4(n: nat): string
    requires n < 0x10000
  {
    var high, low := n / 0x100, n % 0x100;
    [Hex(high / 0x10), Hex(high % 0x10), Hex(low / 0x10), Hex(low % 0x10)]
  }

  function ReadHex4(s: string): Option<nat>
    requires |s| == 4
  {
    var a, b, c, d := HexValue(s[0]), HexValue(s[1]), HexValue(s[2]), HexValue(s[3]);
    if a.None? || b.None? || c.None? || d.None? then None
    else Some(0x1000 * a.value + 0x100 * b.value + 0x10 * c.value + d.value)
  }

  predicate Plain(c: char) {
    ' ' <= c <= '~' && c != '\"' && c != '\\'
  }

  function HighHalf(n: nat): nat {
    0xd800 + n / 0x400
  }

  function LowHalf(n: nat): nat {
    0xdc00 + n % 0x400
  }

  function EscapeAscii(c: char): string {
    if Plain(c) then [c]
    else if c == '\"' then "\\\""
    else if c == '\\' then "\\\\"
    else if c == '\n' then "\\n"
    else if c == '\r' then "\\r"
    else if c == '\t' then "\\t"
    else if c == '\U{8}' then "\\b"
    else if c == '\U{c}' then "\\f"
    else if c as int < 0x10000 then "\\u" + Hex4(c as int)
    else "\\u" + Hex4(HighHalf(c as int - 0x10000)) + "\\u" + Hex4(LowHalf(c as int - 0x10000))
  }

  function EscapedAscii(s: string): string {
    if s == "" then "" else EscapeAscii(s[0]) + EscapedAscii(s[1..])
  }

  /** The code unit escaped at the head of a text. */
  function ReadUnit(s: string): Option<nat> {
    if |s| >= 6 && s[0] == '\\' && s[1] == 'u' then ReadHex4(s[2..6]) else None
  }

  /** The character escaped by one unit or two, and the length of its escape. */
  function ReadUnits(s: string): Option<(char, nat)> {
    match ReadUnit(s)
    case None => None
    case Some(u) =>
      if u < 0xd800 || 0xe000 <= u < 0x10000 then Some((u as char, 6))
      else if u < 0xdc00 then
        (match ReadUnit(s[6..])
         case None => None
         case Some(v) =>
           if 0xdc00 <= v < 0xe000 then Some(((0x10000 + (u - 0xd800) * 0x400 + (v - 0xdc00)) as char, 12)) else None)
      else None
  }

  function ReadChars(s: string): (r: Option<(string, string)>)
    ensures r.Some? ==> |r.value.1| < |s|
  {
    if s == "" then None
    else if s[0] == '\"' then Some(("", s[1..]))
    else if Plain(s[0]) then Prefixed(s[0], ReadChars(s[1..]))
    else if s[0] != '\\' then None
    else if |s| >= 2 && Unescaped(s[1]).Some? then Prefixed(Unescaped(s[1]).value, ReadChars(s[2..]))
    else
      match ReadUnits(s)
      case None => None
      case Some(u) => if u.1 <= |s| then Prefixed(u.0, ReadChars(s[u.1..])) else None
  }

  lemma HexTripOf(n: nat)
    requires n < 0x10
    ensures HexValue(Hex(n)) == Some(n)
  {
  }

  lemma Nibbles(n: nat)
    requires n < 0x100
    ensures n / 0x10 < 0x10 && 0x10 * (n / 0x10) + n % 0x10 == n
  {
  }

  lemma ReadDigits(a: nat, b: nat, c: nat, d: nat)
    requires a < 0x10 && b < 0x10 && c < 0x10 && d < 0x10
    ensures ReadHex4([Hex(a), Hex(b), Hex(c), Hex(d)]) == Some(0x1000 * a + 0x100 * b + 0x10 * c + d)
  {
    HexTripOf(a);
    HexTripOf(b);
    HexTripOf(c);
    HexTripOf(d);
  }

  lemma Hex4Trip(n: nat)
    requires n < 0x10000
    ensures ReadHex4(Hex4(n)) == Some(n)
  {
    var high, low := n / 0x100, n % 0x100;
    assert n == 0x100 * high + low;
    Nibbles(high);
    Nibbles(low);
    ReadDigits(high / 0x10, high % 0x10, low / 0x10, low % 0x10);
  }

  lemma UnitTrip(n: nat, r: string)
    requires n < 0x10000
    ensures ReadUnit("\\u" + Hex4(n) + r) == Some(n) && ("\\u" + Hex4(n) + r)[6..] == r
  {
    var s := "\\u" + Hex4(n) + r;
    assert s[0] == '\\' && s[1] == 'u' && s[2..6] == Hex4(n);
    Hex4Trip(n);
  }

  lemma SingleTrip(c: char, r: string)
    requires c as int < 0x10000
    ensures ReadUnits("\\u" + Hex4(c as int) + r) == Some((c, 6))
  {
    UnitTrip(c as int, r);
  }

  lemma Halves(n: nat)
    requires n < 0x100000
    ensures 0xd800 <= HighHalf(n) < 0xdc00 <= LowHalf(n) < 0xe000
    ensures (HighHalf(n) - 0xd800) * 0x400 + (LowHalf(n) - 0xdc00) == n
  {
  }

  lemma PairTrip(c: char, r: string)
    requires c as int >= 0x10000
    ensures var n := c as int - 0x10000;
            ReadUnits("\\u" + Hex4(HighHalf(n)) + ("\\u" + Hex4(LowHalf(n)) + r)) == Some((c, 12))
  {
    var n := c as int - 0x10000;
    Halves(n);
    UnitTrip(LowHalf(n), r);
    UnitTrip(HighHalf(n), "\\u" + Hex4(LowHalf(n)) + r);
  }

  lemma ReadEscapedUnits(s: string, c: char, n: nat)
    requires |s| >= 2 && s[0] == '\\' && s[1] == 'u' && ReadUnits(s) == Some((c, n)) && n <= |s|
    ensures ReadChars(s) == Prefixed(c, ReadChars(s[n..]))
  {
    assert Unescaped('u').None?;
  }

  lemma SingleCharTrip(c: char, r: string)
    requires c as int < 0x10000
    ensures ReadChars("\\u" + Hex4(c as int) + r) == Prefixed(c, ReadChars(r))
  {
    var s := "\\u" + Hex4(c as int) + r;
    SingleTrip(c, r);
    UnitTrip(c as int, r);
    ReadEscapedUnits(s, c, 6);
  }

  lemma PairCharTrip(c: char, r: string)
    requires c as int >= 0x10000
    ensures var n := c as int - 0x10000;
            ReadChars("\\u" + Hex4(HighHalf(n)) + ("\\u" + Hex4(LowHalf(n)) + r)) == Prefixed(c, ReadChars(r))
  {
    var n := c as int - 0x10000;
    Halves(n);
    var tail := "\\u" + Hex4(LowHalf(n)) + r;
    var s := "\\u" + Hex4(HighHalf(n)) + tail;
    PairTrip(c, r);
    UnitTrip(HighHalf(n), tail);
    UnitTrip(LowHalf(n), r);
    assert s[12..] == s[6..][6..] == tail[6..];
    ReadEscapedUnits(s, c, 12);
  }

  lemma ShortCharTrip(e: char, r: string)
    requires Unescaped(e).Some?
    ensures ReadChars(['\\', e] + r) == Prefixed(Unescaped(e).value, ReadChars(r))
  {
    var s := ['\\', e] + r;
    assert s[0] == '\\' && s[1] == e && s[2..] == r;
  }

  lemma PlainCharTrip(c: char, r: string)
    requires Plain(c)
    ensures ReadChars([c] + r) == Prefixed(c, ReadChars(r))
  {
    assert ([c] + r)[0] == c && ([c] + r)[1..] == r;
  }

  lemma ShortEscape(c: char)
    ensures |EscapeAscii(c)| == 2 ==>
              EscapeAscii(c)[0] == '\\' && Unescaped(EscapeAscii(c)[1]) == Some(c)
    ensures |EscapeAscii(c)| != 2 && !Plain(c) ==>
              EscapeAscii(c) == if c as int < 0x10000 then "\\u" + Hex4(c as int)
                                else "\\u" + Hex4(HighHalf(c as int - 0x10000)) + "\\u" + Hex4(LowHalf(c as int - 0x10000))
  {
    if c as int >= 0x10000 { Halves(c as int - 0x10000); }
  }

  lemma Regrouped(a: string, b: string, c: string, d: string, r: string)
    ensures a + b + c + d + r == a + b + (c + d + r)
  {
  }

  lemma WideCharTrip(c: char, r: string)
    requires c as int >= 0x10000
    requires var n := c as int - 0x10000;
             EscapeAscii(c) == "\\u" + Hex4(HighHalf(n)) + "\\u" + Hex4(LowHalf(n))
    ensures ReadChars(EscapeAscii(c) + r) == Prefixed(c, ReadChars(r))
  {
    var n := c as int - 0x10000;
    Halves(n);
    PairCharTrip(c, r);
    Regrouped("\\u", Hex4(HighHalf(n)), "\\u", Hex4(LowHalf(n)), r);
  }

  lemma CharTrip(c: char, r: string)
    ensures ReadChars(EscapeAscii(c) + r) == Prefixed(c, ReadChars(r))
  {
    ShortEscape(c);
    if Plain(c) {
      PlainCharTrip(c, r);
    } else if |EscapeAscii(c)| == 2 {
      assert EscapeAscii(c) == ['\\', EscapeAscii(c)[1]];
      ShortCharTrip(EscapeAscii(c)[1], r);
    } else if c as int < 0x10000 {
      SingleCharTrip(c, r);
    } else {
      WideCharTrip(c, r);
    }
  }

  lemma CharsStep(t: string, r: string)
    requires t != ""
    ensures EscapedAscii(t) + r == EscapeAscii(t[0]) + (EscapedAscii(t[1..]) + r)
  {
  }

  lemma QuoteEnds(r: string)
    ensures ReadChars("\"" + r) == Some(("", r))
  {
    assert ("\"" + r)[0] == '\"' && ("\"" + r)[1..] == r;
  }

  /** Every string is read back from its escapes, up to its closing quote. */
  lemma {:induction false} CharsTrip(t: string, r: string)
    ensures ReadChars(EscapedAscii(t) + ("\"" + r)) == Some((t, r))
  {
    if t == "" {
      QuoteEnds(r);
      assert EscapedAscii(t) + ("\"" + r) == "\"" + r;
    } else {
      CharsTrip(t[1..], r);
      CharsStep(t, "\"" + r);
      CharTrip(t[0], EscapedAscii(t[1..]) + ("\"" + r));
      assert [t[0]] + t[1..] == t;
    }
  }

  // ------------------------------------------------------------- documents

  function QuotedAscii(s: string): string {
    "\"" + (EscapedAscii(s) + "\"")
  }

  function WriteField(f: Field): string {
    match f
    case Quote(s) => QuotedAscii(s)
    case Whole(n) => Decimal(n)
    case Nothing => "null"
  }

  function ReadWhole(s: string): (r: Option<(Field, string)>)
    ensures r.Some? ==> |r.value.1| < |s|
  {
    var k := NumeralLength(s);
    if k == 0 || !Printed(s[..k]) || Pointed(s[..k]) then None else Some((Whole(IntegerOf(s[..k])), s[k..]))
  }

  function ReadField(s: string): (r: Option<(Field, string)>)
    ensures r.Some? ==> |r.value.1| < |s|
  {
    if StartsWith(s, '\"') then
      (match ReadChars(s[1..]) case None => None case Some(p) => Some((Quote(p.0), p.1)))
    else if "null" <= s then Some((Nothing, s[4..]))
    else ReadWhole(s)
  }

  /** The members under the given keys, in that order, and the closing brace. */
  function WriteEntries(keys: seq<string>, d: Document): string
    requires forall k | k in keys :: k in d
  {
    if keys == [] then "}"
    else
      QuotedAscii(keys[0]) + (":" + (WriteField(d[keys[0]]) + ((if |keys| == 1 then "" else ",") + WriteEntries(keys[1..], d))))
  }

  /** A repeated key keeps its last value. */
  function ReadEntries(s: string): Option<Document>
    decreases |s|
  {
    if !StartsWith(s, '\"') then None
    else
      match ReadChars(s[1..])
      case None => None
      case Some(k) =>
        if !StartsWith(k.1, ':') then None
        else
          match ReadField(k.1[1..])
          case None => None
          case Some(f) =>
            if f.1 == "}" then Some(map[k.0 := f.0])
            else if !StartsWith(f.1, ',') then None
            else
              match ReadEntries(f.1[1..])
              case None => None
              case Some(rest) => Some(map[k.0 := f.0] + rest)
  }

  lemma QuotedTripAscii(t: string, r: string)
    ensures StartsWith(QuotedAscii(t) + r, '\"') && ReadChars((QuotedAscii(t) + r)[1..]) == Some((t, r))
  {
    CharsTrip(t, r);
    assert (QuotedAscii(t) + r)[1..] == EscapedAscii(t) + ("\"" + r);
  }

  lemma WholeTrip(n: int, r: string)
    requires EndsNumeral(r)
    ensures ReadField(Decimal(n) + r) == Some((Whole(n), r))
  {
    var s := Decimal(n) + r;
    DecimalRead(n);
    NumeralTrip(Decimal(n), r);
    PrintedStart(Decimal(n));
    assert s[0] == Decimal(n)[0] && s[..|Decimal(n)|] == Decimal(n) && s[|Decimal(n)|..] == r;
    assert !("null" <= s);
  }

  lemma FieldTrip(f: Field, r: string)
    requires EndsNumeral(r)
    ensures ReadField(WriteField(f) + r) == Some((f, r))
  {
    match f
    case Quote(s) => QuotedTripAscii(s, r);
    case Whole(n) => WholeTrip(n, r);
    case Nothing => assert "null" <= "null" + r && ("null" + r)[4..] == r && ("null" + r)[0] == 'n';
  }

  function Under(keys: seq<string>, d: Document): Document
    requires forall k | k in keys :: k in d
  {
    if keys == [] then map[] else map[keys[0] := d[keys[0]]] + Under(keys[1..], d)
  }

  lemma EntryTrip(k: string, f: Field, more: string)
    requires EndsNumeral(more)
    ensures var s := QuotedAscii(k) + (":" + (WriteField(f) + more));
            && StartsWith(s, '\"') && ReadChars(s[1..]) == Some((k, ":" + (WriteField(f) + more)))
            && (":" + (WriteField(f) + more))[0] == ':' && (":" + (WriteField(f) + more))[1..] == WriteField(f) + more
            && ReadField(WriteField(f) + more) == Some((f, more))
  {
    QuotedTripAscii(k, ":" + (WriteField(f) + more));
    FieldTrip(f, more);
  }

  lemma LastEntry(k: string, f: Field)
    ensures ReadEntries(QuotedAscii(k) + (":" + (WriteField(f) + "}"))) == Some(map[k := f])
  {
    EntryTrip(k, f, "}");
  }

  lemma NextEntry(k: string, f: Field, tail: string, rest: Document)
    requires ReadEntries(tail) == Some(rest)
    ensures ReadEntries(QuotedAscii(k) + (":" + (WriteField(f) + ("," + tail)))) == Some(map[k := f] + rest)
  {
    var more := "," + tail;
    assert more[0] == ',' && more[1..] == tail && more != "}";
    EntryTrip(k, f, more);
  }

  lemma {:induction false} EntriesTrip(keys: seq<string>, d: Document)
    requires keys != [] && forall k | k in keys :: k in d
    ensures ReadEntries(WriteEntries(keys, d)) == Some(Under(keys, d))
  {
    var k, f := keys[0], d[keys[0]];
    if |keys| == 1 {
      assert "" + WriteEntries(keys[1..], d) == "}";
      LastEntry(k, f);
      assert Under(keys, d) == map[k := f];
    } else {
      EntriesTrip(keys[1..], d);
      NextEntry(k, f, WriteEntries(keys[1..], d), Under(keys[1..], d));
    }
  }

  lemma {:induction false} UnderAll(keys: seq<string>, d: Document)
    requires forall k | k in keys :: k in d
    ensures forall k :: k in Under(keys, d) <==> k in keys
    ensures forall k | k in keys :: Under(keys, d)[k] == d[k]
  {
    if keys != [] { UnderAll(keys[1..], d); }
  }

  function WriteDocument(keys: seq<string>, d: Document): string
    requires forall k | k in keys :: k in d
  {
    "{" + WriteEntries(keys, d)
  }

  function ReadDocument(s: string): Option<Document> {
    if StartsWith(s, '{') then ReadEntries(s[1..]) else None
  }

  /** A document is read back from its text, whatever order its keys are written in. */
  lemma DocumentTextTrip(keys: seq<string>, d: Document)
    requires keys != [] && (forall k | k in keys :: k in d) && (forall k | k in d :: k in keys)
    ensures ReadDocument(WriteDocument(keys, d)) == Some(d)
  {
    EntriesTrip(keys, d);
    UnderAll(keys, d);
    assert WriteDocument(keys, d)[1..] == WriteEntries(keys, d);
    assert Under(keys, d) == d;
  }

  // ------------------------------------------------------------- bytes

  predicate AsciiText(s: string) {
    forall i | 0 <= i < |s| :: s[i] as int < 128
  }

  predicate AsciiBytes(b: seq<Base64Url.Byte>) {
    forall i | 0 <= i < |b| :: b[i] < 128
  }

  function BytesOf(s: string): (b: seq<Base64Url.Byte>)
    requires AsciiText(s)
    ensures AsciiBytes(b) && TextOfBytes(b) == s
  {
    var b: seq<Base64Url.Byte> := seq(|s|, i requires 0 <= i < |s| => s[i] as int);
    assert TextOfBytes(b) == s;
    b
  }

  function TextOfBytes(b: seq<Base64Url.Byte>): string
    requires AsciiBytes(b)
  {
    seq(|b|, i requires 0 <= i < |b| => b[i] as char)
  }

  lemma AsciiConcat(s: string, t: string)
    requires AsciiText(s) && AsciiText(t)
    ensures AsciiText(s + t)
  {
  }

  lemma HexIsAscii(n: nat)
    requires n < 0x10
    ensures Hex(n) as int < 128
  {
  }

  lemma UnitIsAscii(n: nat)
    requires n < 0x10000
    ensures AsciiText("\\u" + Hex4(n))
  {
    var high, low := n / 0x100, n % 0x100;
    HexIsAscii(high / 0x10);
    HexIsAscii(high % 0x10);
    HexIsAscii(low / 0x10);
    HexIsAscii(low % 0x10);
    assert AsciiText(Hex4(n));
    AsciiConcat("\\u", Hex4(n));
  }

  lemma ShortIsAscii(s: string)
    requires |s| == 2 && s[0] == '\\' && Unescaped(s[1]).Some?
    ensures AsciiText(s)
  {
  }

  lemma PairIsAscii(n: nat)
    requires n < 0x100000
    ensures HighHalf(n) < 0x10000 && LowHalf(n) < 0x10000
    ensures AsciiText("\\u" + Hex4(HighHalf(n)) + "\\u" + Hex4(LowHalf(n)))
  {
    Halves(n);
    UnitIsAscii(HighHalf(n));
    UnitIsAscii(LowHalf(n));
    var a, b := "\\u" + Hex4(HighHalf(n)), "\\u" + Hex4(LowHalf(n));
    AsciiConcat(a, b);
    assert a + "\\u" + Hex4(LowHalf(n)) == a + b;
  }

  lemma EscapeIsAscii(c: char)
    ensures AsciiText(EscapeAscii(c))
  {
    ShortEscape(c);
    if Plain(c) {
      assert EscapeAscii(c) == [c];
    } else if |EscapeAscii(c)| == 2 {
      ShortIsAscii(EscapeAscii(c));
    } else if c as int < 0x10000 {
      UnitIsAscii(c as int);
    } else {
      PairIsAscii(c as int - 0x10000);
    }
  }

  lemma {:induction false} EscapedIsAscii(s: string)
    ensures AsciiText(EscapedAscii(s))
  {
    if s != "" {
      EscapeIsAscii(s[0]);
      EscapedIsAscii(s[1..]);
      AsciiConcat(EscapeAscii(s[0]), EscapedAscii(s[1..]));
    }
  }

  lemma FieldIsAscii(f: Field)
    ensures AsciiText(WriteField(f))
  {
    match f
    case Quote(s) => EscapedIsAscii(s);
    case _ =>
  }

  lemma {:induction false} EntriesAreAscii(keys: seq<string>, d: Document)
    requires forall k | k in keys :: k in d
    ensures AsciiText(WriteEntries(keys, d))
  {
    if keys != [] {
      var rest := (if |keys| == 1 then "" else ",") + WriteEntries(keys[1..], d);
      EscapedIsAscii(keys[0]);
      FieldIsAscii(d[keys[0]]);
      EntriesAreAscii(keys[1..], d);
      AsciiConcat(WriteField(d[keys[0]]), rest);
      AsciiConcat(":", WriteField(d[keys[0]]) + rest);
      AsciiConcat(QuotedAscii(keys[0]), ":" + (WriteField(d[keys[0]]) + rest));
    }
  }

  /** The bytes of a document's text; everything in it is ASCII, so its own UTF-8. */
  function DocumentBytes(keys: seq<string>, d: Document): (b: seq<Base64Url.Byte>)
    requires forall k | k in keys :: k in d
    ensures AsciiBytes(b) && TextOfBytes(b) == WriteDocument(keys, d)
  {
    EntriesAreAscii(keys, d);
    AsciiConcat("{", WriteEntries(keys, d));
    BytesOf(WriteDocument(keys, d))
  }

  function ReadBytes(b: seq<Base64Url.Byte>): Option<Document> {
    if AsciiBytes(b) then ReadDocument(TextOfBytes(b)) else None
  }
}
