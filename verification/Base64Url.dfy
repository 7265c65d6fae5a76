/** Base64 with the URL-safe alphabet, padding stripped and put back: sections 3.2, 4
    and 5 of RFC 4648. */
module Base64Url {
  import opened Wrappers

  type Byte = x: int | 0 <= x < 256

  function Symbol(n: nat): char
    requires n < 64
  {
    if n < 26 then ('A' as int + n) as char
    else if n < 52 then ('a' as int + (n - 26)) as char
    else if n < 62 then ('0' as int + (n - 52)) as char
    else if n == 62 then '-' else '_'
  }

  /** The six bits a character stands for; the reader takes both alphabets. */
  function ValueOf(c: char): Option<nat> {
    if 'A' <= c <= 'Z' then Some(c as int - 'A' as int)
    else if 'a' <= c <= 'z' then Some(26 + (c as int - 'a' as int))
    else if '0' <= c <= '9' then Some(52 + (c as int - '0' as int))
    else if c == '-' || c == '+' then Some(62)
    else if c == '_' || c == '/' then Some(63)
    else None
  }

  /** The four six-bit parts of three bytes, and the bytes of four parts. */
  function Part0(a: Byte): (n: nat) ensures n < 64 { a / 4 }
  function Part1(a: Byte, b: Byte): (n: nat) ensures n < 64 { a % 4 * 16 + b / 16 }
  function Part2(b: Byte, c: Byte): (n: nat) ensures n < 64 { b % 16 * 4 + c / 64 }
  function Part3(c: Byte): (n: nat) ensures n < 64 { c % 64 }

  function Byte0(p: nat, q: nat): Byte { (p * 4 + q / 16) % 256 }
  function Byte1(q: nat, r: nat): Byte { (q % 16 * 16 + r / 4) % 256 }
  function Byte2(r: nat, s: nat): Byte { (r % 4 * 64 + s) % 256 }

  lemma Split(x: nat, y: nat)
    ensures y < 16 ==> (x * 16 + y) / 16 == x && (x * 16 + y) % 16 == y
    ensures y < 4 ==> (x * 4 + y) / 4 == x && (x * 4 + y) % 4 == y
  {
  }

  lemma Part0Back(a: Byte, b: Byte)
    ensures Byte0(Part0(a), Part1(a, b)) == a
  {
    Split(a % 4, b / 16);
    assert Part1(a, b) / 16 == a % 4;
    assert a / 4 * 4 + a % 4 == a;
  }

  lemma Part1Back(a: Byte, b: Byte, c: Byte)
    ensures Byte1(Part1(a, b), Part2(b, c)) == b
  {
    Split(a % 4, b / 16);
    Split(b % 16, c / 64);
    assert Part1(a, b) % 16 == b / 16 && Part2(b, c) / 4 == b % 16;
    assert b / 16 * 16 + b % 16 == b;
  }

  lemma Part2Back(b: Byte, c: Byte)
    ensures Byte2(Part2(b, c), Part3(c)) == c
  {
    Split(b % 16, c / 64);
    assert Part2(b, c) % 4 == c / 64;
    assert c / 64 * 64 + c % 64 == c;
  }

  lemma PartsToBytes(a: Byte, b: Byte, c: Byte)
    ensures Byte0(Part0(a), Part1(a, b)) == a
    ensures Byte1(Part1(a, b), Part2(b, c)) == b
    ensures Byte2(Part2(b, c), Part3(c)) == c
  {
    Part0Back(a, b);
    Part1Back(a, b, c);
    Part2Back(b, c);
  }

  /** The padded encoding: three bytes to four symbols, the last group filled with '='. */
  function Encode(b: seq<Byte>): string {
    if b == [] then ""
    else if |b| == 1 then [Symbol(Part0(b[0])), Symbol(Part1(b[0], 0)), '=', '=']
    else if |b| == 2 then [Symbol(Part0(b[0])), Symbol(Part1(b[0], b[1])), Symbol(Part2(b[1], 0)), '=']
    else [Symbol(Part0(b[0])), Symbol(Part1(b[0], b[1])), Symbol(Part2(b[1], b[2])), Symbol(Part3(b[2]))] + Encode(b[3..])
  }

  function Stripped(s: string): string {
    if s != "" && s[|s| - 1] == '=' then Stripped(s[..|s| - 1]) else s
  }

  function Padding(n: nat): string {
    seq(n, _ => '=')
  }

  function Repadded(s: string): string {
    s + Padding((0 - |s|) % 4)
  }

  /** The byte completed by a part that is not the first of its group. */
  function Completed(quad: nat, last: nat, v: nat): seq<Byte> {
    match quad
    case 0 => []
    case 1 => [Byte0(last, v)]
    case 2 => [Byte1(last, v)]
    case _ => [Byte2(last, v)]
  }

  function Prepended(head: seq<Byte>, rest: Option<seq<Byte>>): Option<seq<Byte>> {
    match rest
    case None => None
    case Some(bytes) => Some(head + bytes)
  }

  /** The reader, with quad parts of the present group read, last the latest of them, and
      the signs seen since. It skips what is in no alphabet, ends at the sign that fills a
      group, and refuses a text that ends inside one. */
  function Scan(s: string, quad: nat, last: nat, signs: nat): Option<seq<Byte>>
    requires quad < 4
  {
    if s == "" then (if quad == 0 then Some([]) else None)
    else if s[0] == '=' then
      if quad < 2 then Scan(s[1..], quad, last, signs)
      else if quad + signs + 1 >= 4 then Some([])
      else Scan(s[1..], quad, last, signs + 1)
    else
      match ValueOf(s[0])
      case None => Scan(s[1..], quad, last, signs)
      case Some(v) => Prepended(Completed(quad, last, v), Scan(s[1..], if quad == 3 then 0 else quad + 1, v, 0))
  }

  predicate Ascii(s: string) {
    forall i | 0 <= i < |s| :: s[i] as int < 128
  }

  function Decode(s: string): Option<seq<Byte>> {
    if Ascii(s) then Scan(s, 0, 0, 0) else None
  }

  lemma SymbolValue(n: nat)
    requires n < 64
    ensures ValueOf(Symbol(n)) == Some(n) && Symbol(n) != '=' && Symbol(n) as int < 128
  {
  }

  function Quads(n: nat): nat {
    if n <= 3 then (if n == 0 then 0 else 1) else 1 + Quads(n - 3)
  }

  lemma FourMore(s: string, t: string, n: nat)
    requires |s| == 4 && |t| == 4 * n
    ensures |s + t| == 4 * (n + 1)
  {
  }

  lemma {:induction false} EncodeLength(b: seq<Byte>)
    ensures |Encode(b)| == 4 * Quads(|b|)
  {
    if |b| > 2 {
      EncodeLength(b[3..]);
      FourMore([Symbol(Part0(b[0])), Symbol(Part1(b[0], b[1])), Symbol(Part2(b[1], b[2])), Symbol(Part3(b[2]))],
               Encode(b[3..]), Quads(|b[3..]|));
    }
  }

  lemma PrependedTwice(a: seq<Byte>, b: seq<Byte>, rest: Option<seq<Byte>>)
    ensures Prepended(a, Prepended(b, rest)) == Prepended(a + b, rest)
    ensures Prepended([], rest) == rest
    ensures Prepended(a, Some([])) == Some(a)
  {
    assert a + [] == a;
    if rest.Some? {
      assert a + (b + rest.value) == (a + b) + rest.value;
      assert [] + rest.value == rest.value;
    }
  }

  lemma ScanSymbol(n: nat, tail: string, quad: nat, last: nat)
    requires n < 64 && quad < 4
    ensures Scan([Symbol(n)] + tail, quad, last, 0)
         == Prepended(Completed(quad, last, n), Scan(tail, if quad == 3 then 0 else quad + 1, n, 0))
  {
    SymbolValue(n);
    assert ([Symbol(n)] + tail)[1..] == tail;
  }

  /** The first two parts of a group give its first byte. */
  lemma ScanHead(p: nat, q: nat, tail: string, last: nat)
    requires p < 64 && q < 64
    ensures Scan([Symbol(p), Symbol(q)] + tail, 0, last, 0) == Prepended([Byte0(p, q)], Scan(tail, 2, q, 0))
  {
    var s := [Symbol(q)] + tail;
    assert [Symbol(p), Symbol(q)] + tail == [Symbol(p)] + s;
    ScanSymbol(p, s, 0, last);
    PrependedTwice([], [], Scan(s, 1, p, 0));
    ScanSymbol(q, tail, 1, p);
  }

  /** The other two give the two bytes that complete it. */
  lemma ScanTail(q: nat, r: nat, v: nat, tail: string)
    requires r < 64 && v < 64
    ensures Scan([Symbol(r), Symbol(v)] + tail, 2, q, 0) == Prepended([Byte1(q, r), Byte2(r, v)], Scan(tail, 0, v, 0))
  {
    var s := [Symbol(v)] + tail;
    assert [Symbol(r), Symbol(v)] + tail == [Symbol(r)] + s;
    ScanSymbol(r, s, 2, q);
    ScanSymbol(v, tail, 3, r);
    PrependedTwice([Byte1(q, r)], [Byte2(r, v)], Scan(tail, 0, v, 0));
    assert [Byte1(q, r)] + [Byte2(r, v)] == [Byte1(q, r), Byte2(r, v)];
  }

  lemma ScanGroup(p: nat, q: nat, r: nat, v: nat, tail: string, last: nat)
    requires p < 64 && q < 64 && r < 64 && v < 64
    ensures Scan([Symbol(p), Symbol(q), Symbol(r), Symbol(v)] + tail, 0, last, 0)
         == Prepended([Byte0(p, q), Byte1(q, r), Byte2(r, v)], Scan(tail, 0, v, 0))
  {
    var s := [Symbol(r), Symbol(v)] + tail;
    assert [Symbol(p), Symbol(q), Symbol(r), Symbol(v)] + tail == [Symbol(p), Symbol(q)] + s;
    ScanHead(p, q, s, last);
    ScanTail(q, r, v, tail);
    PrependedTwice([Byte0(p, q)], [Byte1(q, r), Byte2(r, v)], Scan(tail, 0, v, 0));
    assert [Byte0(p, q)] + [Byte1(q, r), Byte2(r, v)] == [Byte0(p, q), Byte1(q, r), Byte2(r, v)];
  }

  lemma ScanSigns(s: string, last: nat)
    requires s != "" && forall i | 0 <= i < |s| :: s[i] == '='
    ensures |s| == 1 ==> Scan(s, 3, last, 0) == Some([])
    ensures |s| == 2 ==> Scan(s, 2, last, 0) == Some([])
  {
    if |s| == 2 {
      assert s[1..][0] == '=';
      assert Scan(s[1..], 2, last, 1) == Some([]);
    }
  }

  lemma ScanOne(p: nat, q: nat, signs: string, last: nat)
    requires p < 64 && q < 64 && |signs| == 2 && forall i | 0 <= i < |signs| :: signs[i] == '='
    ensures Scan([Symbol(p), Symbol(q)] + signs, 0, last, 0) == Some([Byte0(p, q)])
  {
    ScanHead(p, q, signs, last);
    ScanSigns(signs, q);
    PrependedTwice([Byte0(p, q)], [], None);
  }

  lemma ScanTwo(p: nat, q: nat, r: nat, signs: string, last: nat)
    requires p < 64 && q < 64 && r < 64 && |signs| == 1 && signs[0] == '='
    ensures Scan([Symbol(p), Symbol(q), Symbol(r)] + signs, 0, last, 0) == Some([Byte0(p, q), Byte1(q, r)])
  {
    var s := [Symbol(r)] + signs;
    assert [Symbol(p), Symbol(q), Symbol(r)] + signs == [Symbol(p), Symbol(q)] + s;
    ScanHead(p, q, s, last);
    ScanSymbol(r, signs, 2, q);
    ScanSigns(signs, r);
    PrependedTwice([Byte1(q, r)], [], None);
    assert [Byte0(p, q)] + [Byte1(q, r)] == [Byte0(p, q), Byte1(q, r)];
  }

  lemma ScanEncodeOne(b: seq<Byte>, last: nat)
    requires |b| == 1
    ensures Scan(Encode(b), 0, last, 0) == Some(b)
  {
    var p, q := Part0(b[0]), Part1(b[0], 0);
    Part0Back(b[0], 0);
    ScanOne(p, q, Padding(2), last);
    assert Encode(b) == [Symbol(p), Symbol(q)] + Padding(2);
    assert b == [b[0]];
  }

  lemma ScanEncodeTwo(b: seq<Byte>, last: nat)
    requires |b| == 2
    ensures Scan(Encode(b), 0, last, 0) == Some(b)
  {
    var p, q, r := Part0(b[0]), Part1(b[0], b[1]), Part2(b[1], 0);
    Part0Back(b[0], b[1]);
    Part1Back(b[0], b[1], 0);
    ScanTwo(p, q, r, Padding(1), last);
    assert Encode(b) == [Symbol(p), Symbol(q), Symbol(r)] + Padding(1);
    assert b == [b[0], b[1]];
  }

  lemma ScanEncodeGroup(b: seq<Byte>, last: nat)
    requires |b| > 2 && Scan(Encode(b[3..]), 0, Part3(b[2]), 0) == Some(b[3..])
    ensures Scan(Encode(b), 0, last, 0) == Some(b)
  {
    PartsToBytes(b[0], b[1], b[2]);
    ScanGroup(Part0(b[0]), Part1(b[0], b[1]), Part2(b[1], b[2]), Part3(b[2]), Encode(b[3..]), last);
    assert b == [b[0], b[1], b[2]] + b[3..];
  }

  lemma {:induction false} ScanEncode(b: seq<Byte>, last: nat)
    ensures Scan(Encode(b), 0, last, 0) == Some(b)
  {
    if |b| == 1 {
      ScanEncodeOne(b, last);
    } else if |b| == 2 {
      ScanEncodeTwo(b, last);
    } else if |b| > 2 {
      ScanEncode(b[3..], Part3(b[2]));
      ScanEncodeGroup(b, last);
    }
  }

  lemma {:induction false} EncodeAscii(b: seq<Byte>)
    ensures Ascii(Encode(b))
  {
    if b != [] {
      SymbolValue(Part0(b[0]));
      SymbolValue(Part1(b[0], if |b| == 1 then 0 else b[1]));
    }
    if |b| >= 2 { SymbolValue(Part2(b[1], if |b| == 2 then 0 else b[2])); }
    if |b| > 2 {
      SymbolValue(Part3(b[2]));
      EncodeAscii(b[3..]);
    }
  }

  lemma DecodeEncode(b: seq<Byte>)
    ensures Decode(Encode(b)) == Some(b)
  {
    EncodeAscii(b);
    ScanEncode(b, 0);
  }

  /** Stripping removes fewer than three signs, all of them padding. */
  lemma {:induction false} StrippedEncode(b: seq<Byte>)
    ensures exists k: nat :: k < 3 && Encode(b) == Stripped(Encode(b)) + Padding(k)
    ensures Encode(b) != "" ==> Stripped(Encode(b)) != ""
  {
    var s := Encode(b);
    if |b| == 0 {
      assert s == Stripped(s) + Padding(0);
    } else if |b| == 1 {
      SymbolValue(Part1(b[0], 0));
      assert s[..3][..2] == s[..2] && Stripped(s) == Stripped(s[..3]) == Stripped(s[..2]) == s[..2];
      assert s == s[..2] + Padding(2);
    } else if |b| == 2 {
      SymbolValue(Part2(b[1], 0));
      assert Stripped(s) == Stripped(s[..3]) == s[..3];
      assert s == s[..3] + Padding(1);
    } else {
      var head, tail := s[..4], Encode(b[3..]);
      SymbolValue(Part3(b[2]));
      StrippedEncode(b[3..]);
      var k: nat :| k < 3 && tail == Stripped(tail) + Padding(k);
      assert s == head + tail;
      StrippedAppend(head, tail);
      assert head + (Stripped(tail) + Padding(k)) == (head + Stripped(tail)) + Padding(k);
    }
  }

  lemma {:induction false} StrippedAppend(head: string, tail: string)
    requires head != "" && head[|head| - 1] != '='
    ensures Stripped(head + tail) == head + Stripped(tail)
  {
    var s := head + tail;
    if tail == "" {
      assert s == head;
    } else {
      assert s[|s| - 1] == tail[|tail| - 1];
      if tail[|tail| - 1] == '=' {
        assert s[..|s| - 1] == head + tail[..|tail| - 1];
        StrippedAppend(head, tail[..|tail| - 1]);
      }
    }
  }

  lemma Complement(n: nat, k: nat, q: nat)
    requires n + k == 4 * q && k < 3
    ensures (0 - n) % 4 == k
  {
  }

  /** Putting back as many signs as make the length a multiple of four undoes the stripping. */
  lemma RepaddedStripped(b: seq<Byte>)
    ensures Repadded(Stripped(Encode(b))) == Encode(b)
  {
    StrippedEncode(b);
    EncodeLength(b);
    var s := Stripped(Encode(b));
    var k: nat :| k < 3 && Encode(b) == s + Padding(k);
    assert |Encode(b)| == |s| + k;
    Complement(|s|, k, Quads(|b|));
  }

  /** Every byte string survives the unpadded text. */
  lemma UnpaddedRoundTrip(b: seq<Byte>)
    ensures Decode(Repadded(Stripped(Encode(b)))) == Some(b)
  {
    RepaddedStripped(b);
    DecodeEncode(b);
  }
}
