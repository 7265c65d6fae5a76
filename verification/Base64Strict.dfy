/** Which texts the lenient reader takes besides the encodings: the exact condition, and
    families of texts that meet it not. */
module Base64Strict {
  import opened Wrappers
  import opened Base64Url

  /** One of the 64 URL-safe symbols. */
  predicate UrlSafe(c: char) {
    'A' <= c <= 'Z' || 'a' <= c <= 'z' || '0' <= c <= '9' || c == '-' || c == '_'
  }

  function Bits(c: char): (n: nat)
    requires UrlSafe(c)
    ensures n < 64 && Symbol(n) == c
  {
    ValueOf(c).value
  }

  /** A strict unpadded text: symbols alone, no lone symbol in the last group, and no bits
      there that belong to no byte. */
  predicate Canonical(s: string) {
    && (forall i | 0 <= i < |s| :: UrlSafe(s[i]))
    && |s| % 4 != 1
    && (|s| % 4 == 2 ==> Bits(s[|s| - 1]) % 16 == 0)
    && (|s| % 4 == 3 ==> Bits(s[|s| - 1]) % 4 == 0)
  }

  /** The unpadded encoding, directly. */
  function Bare(b: seq<Byte>): string {
    if b == [] then ""
    else if |b| == 1 then [Symbol(Part0(b[0])), Symbol(Part1(b[0], 0))]
    else if |b| == 2 then [Symbol(Part0(b[0])), Symbol(Part1(b[0], b[1])), Symbol(Part2(b[1], 0))]
    else [Symbol(Part0(b[0])), Symbol(Part1(b[0], b[1])), Symbol(Part2(b[1], b[2])), Symbol(Part3(b[2]))] + Bare(b[3..])
  }

  lemma StrippedSigns(s: string, n: nat)
    requires s != "" && s[|s| - 1] != '='
    ensures n <= 2 ==> Stripped(s + Padding(n)) == s
  {
    StrippedAppend(s, Padding(n));
    assert n == 1 ==> Padding(n)[..0] == "";
    assert n == 2 ==> Padding(n)[..1] == Padding(1) && Padding(1)[..0] == "";
    assert s + "" == s;
  }

  lemma {:induction false} StrippedIsBare(b: seq<Byte>)
    ensures Stripped(Encode(b)) == Bare(b)
  {
    if |b| == 1 {
      SymbolValue(Part1(b[0], 0));
      StrippedSigns(Bare(b), 2);
      assert Encode(b) == Bare(b) + Padding(2);
    } else if |b| == 2 {
      SymbolValue(Part2(b[1], 0));
      StrippedSigns(Bare(b), 1);
      assert Encode(b) == Bare(b) + Padding(1);
    } else if |b| > 2 {
      SymbolValue(Part3(b[2]));
      StrippedIsBare(b[3..]);
      StrippedAppend(Encode(b)[..4], Encode(b[3..]));
      assert Encode(b) == Encode(b)[..4] + Encode(b[3..]);
    }
  }

  lemma SymbolBits(n: nat)
    requires n < 64
    ensures UrlSafe(Symbol(n)) && Bits(Symbol(n)) == n
  {
  }

  lemma CanonicalGroup(head: string, tail: string)
    requires |head| == 4 && forall i | 0 <= i < 4 :: UrlSafe(head[i])
    ensures Canonical(head + tail) <==> Canonical(tail)
  {
    var s := head + tail;
    assert |s| % 4 == |tail| % 4;
    assert forall i | 0 <= i < |tail| :: s[4 + i] == tail[i];
    assert (forall i | 0 <= i < |s| :: UrlSafe(s[i])) ==> forall i | 0 <= i < |tail| :: UrlSafe(tail[i]) by {
      assert forall i | 0 <= i < |tail| :: tail[i] == s[4 + i];
    }
    assert forall i | 0 <= i < 4 :: s[i] == head[i];
    assert tail != "" ==> s[|s| - 1] == tail[|tail| - 1];
  }

  lemma {:induction false} BareIsCanonical(b: seq<Byte>)
    ensures Canonical(Bare(b))
  {
    if |b| == 1 {
      SymbolBits(Part0(b[0]));
      SymbolBits(Part1(b[0], 0));
    } else if |b| == 2 {
      SymbolBits(Part0(b[0]));
      SymbolBits(Part1(b[0], b[1]));
      SymbolBits(Part2(b[1], 0));
    } else if |b| > 2 {
      SymbolBits(Part0(b[0]));
      SymbolBits(Part1(b[0], b[1]));
      SymbolBits(Part2(b[1], b[2]));
      SymbolBits(Part3(b[2]));
      BareIsCanonical(b[3..]);
      CanonicalGroup(Bare(b)[..4], Bare(b[3..]));
      assert Bare(b) == Bare(b)[..4] + Bare(b[3..]);
    }
  }

  lemma Cut4(x: nat, y: nat)
    requires y < 4
    ensures (x * 4 + y) / 4 == x && (x * 4 + y) % 4 == y
  {
  }

  lemma Cut64(x: nat, y: nat)
    requires y < 64
    ensures (x * 64 + y) / 64 == x && (x * 64 + y) % 64 == y
  {
  }

  /** Bytes are cut into parts as parts are put into bytes. */
  lemma FirstParts(p: nat, q: nat)
    requires p < 64 && q < 64
    ensures Part0(Byte0(p, q)) == p && Byte0(p, q) % 4 == q / 16
  {
    Cut4(p, q / 16);
    assert p * 4 + q / 16 < 256;
  }

  lemma MiddleParts(q: nat, r: nat)
    requires q < 64 && r < 64
    ensures Byte1(q, r) / 16 == q % 16 && Byte1(q, r) % 16 == r / 4
  {
    Split(q % 16, r / 4);
    assert q % 16 * 16 + r / 4 < 256;
  }

  lemma LastParts(r: nat, v: nat)
    requires r < 64 && v < 64
    ensures Byte2(r, v) / 64 == r % 4 && Part3(Byte2(r, v)) == v
  {
    Cut64(r % 4, v);
    assert r % 4 * 64 + v < 256;
  }

  lemma PartsBack(p: nat, q: nat, r: nat, v: nat)
    requires p < 64 && q < 64 && r < 64 && v < 64
    ensures Part0(Byte0(p, q)) == p
    ensures Part1(Byte0(p, q), Byte1(q, r)) == q
    ensures Part2(Byte1(q, r), Byte2(r, v)) == r
    ensures Part3(Byte2(r, v)) == v
  {
    FirstParts(p, q);
    MiddleParts(q, r);
    LastParts(r, v);
    assert q / 16 * 16 + q % 16 == q && r / 4 * 4 + r % 4 == r;
  }

  lemma ShortPartsBack(p: nat, q: nat, r: nat)
    requires p < 64 && q < 64 && r < 64
    ensures q % 16 == 0 ==> Part1(Byte0(p, q), 0) == q
    ensures r % 4 == 0 ==> Part2(Byte1(q, r), 0) == r
  {
    FirstParts(p, q);
    MiddleParts(q, r);
    assert q / 16 * 16 + q % 16 == q && r / 4 * 4 + r % 4 == r;
  }

  lemma BareOne(p: nat, q: nat)
    requires p < 64 && q < 64 && q % 16 == 0
    ensures Bare([Byte0(p, q)]) == [Symbol(p), Symbol(q)]
  {
    PartsBack(p, q, 0, 0);
    ShortPartsBack(p, q, 0);
  }

  lemma BareTwo(p: nat, q: nat, r: nat)
    requires p < 64 && q < 64 && r < 64 && r % 4 == 0
    ensures Bare([Byte0(p, q), Byte1(q, r)]) == [Symbol(p), Symbol(q), Symbol(r)]
  {
    PartsBack(p, q, r, 0);
    ShortPartsBack(p, q, r);
  }

  lemma BareGroup(p: nat, q: nat, r: nat, v: nat, rest: seq<Byte>)
    requires p < 64 && q < 64 && r < 64 && v < 64
    ensures Bare([Byte0(p, q), Byte1(q, r), Byte2(r, v)] + rest)
         == [Symbol(p), Symbol(q), Symbol(r), Symbol(v)] + Bare(rest)
  {
    var b := [Byte0(p, q), Byte1(q, r), Byte2(r, v)] + rest;
    PartsBack(p, q, r, v);
    assert b[0] == Byte0(p, q) && b[1] == Byte1(q, r) && b[2] == Byte2(r, v) && b[3..] == rest;
  }

  /** Every strict text is the encoding of something. */
  lemma {:induction false} CanonicalIsBare(s: string) returns (b: seq<Byte>)
    requires Canonical(s)
    ensures Bare(b) == s
    decreases |s|, 1
  {
    if s == "" {
      b := [];
    } else if |s| == 2 {
      b := [Byte0(Bits(s[0]), Bits(s[1]))];
      BareOne(Bits(s[0]), Bits(s[1]));
    } else if |s| == 3 {
      b := [Byte0(Bits(s[0]), Bits(s[1])), Byte1(Bits(s[1]), Bits(s[2]))];
      BareTwo(Bits(s[0]), Bits(s[1]), Bits(s[2]));
    } else {
      b := CanonicalIsGroups(s);
    }
  }

  lemma {:induction false} CanonicalIsGroups(s: string) returns (b: seq<Byte>)
    requires Canonical(s) && |s| > 3
    ensures Bare(b) == s
    decreases |s|, 0
  {
    var head, tail := s[..4], s[4..];
    assert s == head + tail;
    CanonicalGroup(head, tail);
    var rest := CanonicalIsBare(tail);
    b := [Byte0(Bits(s[0]), Bits(s[1])), Byte1(Bits(s[1]), Bits(s[2])), Byte2(Bits(s[2]), Bits(s[3]))] + rest;
    BareGroup(Bits(s[0]), Bits(s[1]), Bits(s[2]), Bits(s[3]), rest);
    assert head == [s[0], s[1], s[2], s[3]];
  }

  /** A text that is read as some bytes is their encoding exactly when it is strict. */
  lemma StrictExactly(s: string, b: seq<Byte>)
    requires Decode(Repadded(s)) == Some(b)
    ensures s == Stripped(Encode(b)) <==> Canonical(s)
  {
    StrippedIsBare(b);
    BareIsCanonical(b);
    if Canonical(s) {
      var own := CanonicalIsBare(s);
      StrippedIsBare(own);
      UnpaddedRoundTrip(own);
    }
  }

  // ------------------------------------------------------------- texts that are not strict

  predicate Foreign(c: char) {
    ValueOf(c).None? && c != '=' && c as int < 128
  }

  lemma {:induction false} ScanSkips(head: string, s: string, last: nat)
    requires forall i | 0 <= i < |head| :: Foreign(head[i])
    ensures Scan(head + s, 0, last, 0) == Scan(s, 0, last, 0)
  {
    if head == "" {
      assert head + s == s;
    } else {
      ScanSkips(head[1..], s, last);
      assert (head + s)[0] == head[0] && (head + s)[1..] == head[1..] + s;
    }
  }

  /** Four foreign characters in front of any text change nothing that is read of it. */
  lemma ForeignIgnored(head: string, s: string)
    requires |head| == 4 && forall i | 0 <= i < |head| :: Foreign(head[i])
    ensures Decode(Repadded(head + s)) == Decode(Repadded(s))
    ensures !Canonical(head + s)
  {
    var signs := Padding((0 - |s|) % 4);
    assert (0 - |head + s|) % 4 == (0 - |s|) % 4;
    assert Repadded(head + s) == head + Repadded(s);
    ScanSkips(head, Repadded(s), 0);
    AsciiAppend(head, Repadded(s));
    assert (head + s)[0] == head[0] && !UrlSafe(head[0]);
  }

  lemma AsciiAppend(head: string, s: string)
    requires Ascii(head)
    ensures Ascii(head + s) <==> Ascii(s)
  {
    assert forall i | 0 <= i < |s| :: s[i] == (head + s)[|head| + i];
  }

  /** Bits that belong to no byte are dropped: "QR" is read like "QQ". */
  lemma SpareBitsIgnored(p: nat, q: nat)
    requires p < 64 && q < 64
    ensures Decode(Repadded([Symbol(p), Symbol(q)])) == Some([Byte0(p, q)])
    ensures Stripped(Encode([Byte0(p, q)])) == [Symbol(p), Symbol(q)] <==> q % 16 == 0
  {
    var s := [Symbol(p), Symbol(q)];
    SymbolValue(p);
    SymbolValue(q);
    SymbolBits(p);
    SymbolBits(q);
    assert Repadded(s) == s + Padding(2);
    ScanOne(p, q, Padding(2), 0);
    StrictExactly(s, [Byte0(p, q)]);
  }

  /** So a text may be read as bytes without being their encoding. */
  lemma NotStrict(s: string)
    requires s == "QR"
    ensures Decode(Repadded(s)) == Some([65]) && Stripped(Encode([65])) != s && !Canonical(s)
  {
    assert s == [Symbol(16), Symbol(17)];
    SpareBitsIgnored(16, 17);
    assert Byte0(16, 17) == 65;
    StrictExactly(s, [65]);
  }
}
