/** Decimal numerals and their reading. */
module Numerals {
  predicate IsDigit(c: char) {
    '0' <= c <= '9'
  }

  predicate DigitsOnly(s: string) {
    forall i | 0 <= i < |s| :: IsDigit(s[i])
  }

  function DigitOf(n: nat): char
    requires n < 10
  {
    ('0' as int + n) as char
  }

  function Digits(n: nat): (s: string)
    ensures s != "" && DigitsOnly(s)
  {
    (if n < 10 then "" else Digits(n / 10)) + [DigitOf(n % 10)]
  }

  function ValueOf(s: string): nat
    requires DigitsOnly(s)
  {
    if s == "" then 0
    else
      assert IsDigit(s[|s| - 1]);
      10 * ValueOf(s[..|s| - 1]) + (s[|s| - 1] as int - '0' as int)
  }

  lemma {:induction false} ValueOfDigits(n: nat)
    ensures ValueOf(Digits(n)) == n
  {
    var s := Digits(n);
    if n >= 10 {
      ValueOfDigits(n / 10);
      assert s[..|s| - 1] == Digits(n / 10);
    } else {
      assert s[..|s| - 1] == "";
    }
  }

  lemma DigitsInjective(m: nat, n: nat)
    requires Digits(m) == Digits(n)
    ensures m == n
  {
    ValueOfDigits(m);
    ValueOfDigits(n);
  }

  lemma {:induction false} DigitsLead(n: nat)
    ensures Digits(n)[0] == '0' <==> n == 0
    ensures n == 0 ==> Digits(n) == "0"
  {
    if n >= 10 { DigitsLead(n / 10); }
  }

  lemma {:induction false} ValuePositive(s: string)
    requires s != "" && s[0] != '0' && DigitsOnly(s)
    ensures ValueOf(s) > 0
  {
    if |s| > 1 { ValuePositive(s[..|s| - 1]); }
  }

  lemma ValueSnoc(init: string, c: char)
    requires DigitsOnly(init) && IsDigit(c)
    ensures DigitsOnly(init + [c]) && ValueOf(init + [c]) == 10 * ValueOf(init) + (c as int - '0' as int)
  {
    assert (init + [c])[..|init|] == init;
  }

  lemma DigitsSnoc(v: nat, d: nat)
    requires v > 0 && d < 10
    ensures Digits(10 * v + d) == Digits(v) + [DigitOf(d)]
  {
    assert (10 * v + d) / 10 == v && (10 * v + d) % 10 == d;
  }

  /** A numeral without a superfluous zero is the numeral of its value. */
  lemma {:induction false} DigitsOfValue(s: string)
    requires s != "" && DigitsOnly(s)
    requires |s| > 1 ==> s[0] != '0'
    ensures Digits(ValueOf(s)) == s
  {
    var init, last := s[..|s| - 1], s[|s| - 1];
    assert s == init + [last] && IsDigit(last);
    ValueSnoc(init, last);
    if |s| == 1 {
      OneDigit(last);
    } else {
      DigitsOfValue(init);
      ValuePositive(init);
      DigitsSnoc(ValueOf(init), last as int - '0' as int);
    }
  }

  lemma OneDigit(c: char)
    requires IsDigit(c)
    ensures ValueOf([c]) == c as int - '0' as int && Digits(ValueOf([c])) == [c]
  {
    ValueSnoc("", c);
    assert "" + [c] == [c];
  }

  /** The number of leading digits. */
  function Span(s: string): (k: nat)
    ensures k <= |s| && forall i | 0 <= i < k :: IsDigit(s[i])
    ensures k < |s| ==> !IsDigit(s[k])
  {
    if s == "" || !IsDigit(s[0]) then 0 else 1 + Span(s[1..])
  }

  lemma {:induction false} SpanOf(s: string, rest: string)
    requires DigitsOnly(s)
    requires rest == "" || !IsDigit(rest[0])
    ensures Span(s + rest) == |s|
  {
    if s == "" {
      assert s + rest == rest;
    } else {
      assert (s + rest)[0] == s[0] && (s + rest)[1..] == s[1..] + rest;
      SpanOf(s[1..], rest);
    }
  }

  function Decimal(n: int): string {
    if n < 0 then "-" + Digits(-n) else Digits(n)
  }

  function Unsigned(x: string): string {
    if x != "" && x[0] == '-' then x[1..] else x
  }

  /** What positional printing of a finite number yields: an optional minus, an integer part
      without a superfluous zero, and perhaps a point with digits behind it. */
  predicate Printed(x: string) {
    var body := Unsigned(x);
    var k := Span(body);
    && k > 0 && (k > 1 ==> body[0] != '0')
    && (k == |body| || (body[k] == '.' && k + 1 < |body| && k + 1 + Span(body[k + 1..]) == |body|))
  }

  /** Nothing that prints an integer prints this. */
  predicate Pointed(x: string) {
    '.' in x || x == "-0"
  }

  /** The length of the unsigned numeral a text begins with, or zero. */
  function BodyLength(s: string): (k: nat)
    ensures k <= |s|
  {
    var k := Span(s);
    if 0 < k && k + 1 < |s| && s[k] == '.' then k + 1 + Span(s[k + 1..]) else k
  }

  function NumeralLength(s: string): (k: nat)
    ensures k <= |s|
  {
    var body := Unsigned(s);
    if BodyLength(body) == 0 then 0 else |s| - |body| + BodyLength(body)
  }

  /** What may follow a numeral. */
  predicate EndsNumeral(r: string) {
    r == "" || (!IsDigit(r[0]) && r[0] != '.')
  }

  lemma SpanAt(s: string, k: nat)
    requires k <= |s| && forall i | 0 <= i < k :: IsDigit(s[i])
    requires k == |s| || !IsDigit(s[k])
    ensures Span(s) == k
  {
    SpanOf(s[..k], s[k..]);
    assert s == s[..k] + s[k..];
  }

  lemma UnsignedTail(x: string, r: string)
    requires Unsigned(x) != ""
    ensures Unsigned(x + r) == Unsigned(x) + r
  {
    assert (x + r)[0] == x[0] && (x + r)[1..] == x[1..] + r;
  }

  lemma WholeBody(whole: string, r: string)
    requires EndsNumeral(r) && whole != "" && Span(whole) == |whole|
    ensures BodyLength(whole + r) == |whole|
  {
    SpanOf(whole, r);
    assert r != "" ==> (whole + r)[|whole|] == r[0];
  }

  lemma PointedBody(whole: string, part: string, r: string)
    requires EndsNumeral(r) && whole != "" && Span(whole) == |whole| && part != "" && Span(part) == |part|
    ensures BodyLength(whole + ("." + (part + r))) == |whole| + 1 + |part|
  {
    var t := "." + (part + r);
    assert t[0] == '.' && t[1..] == part + r;
    SpanOf(whole, t);
    SpanOf(part, r);
    assert (whole + t)[|whole|] == t[0] && (whole + t)[|whole| + 1..] == t[1..];
  }

  lemma SpanPrefix(s: string)
    ensures Span(s[..Span(s)]) == Span(s)
  {
    SpanAt(s[..Span(s)], Span(s));
  }

  lemma CutAtPoint(body: string, k: nat, r: string)
    requires k < |body| && body[k] == '.'
    ensures body + r == body[..k] + ("." + (body[k + 1..] + r))
  {
    assert body == body[..k] + ("." + body[k + 1..]);
  }

  lemma PrintedBody(x: string, r: string)
    requires Printed(x) && EndsNumeral(r)
    ensures BodyLength(Unsigned(x) + r) == |Unsigned(x)|
  {
    var body := Unsigned(x);
    var k := Span(body);
    if k == |body| {
      WholeBody(body, r);
    } else {
      SpanPrefix(body);
      CutAtPoint(body, k, r);
      PointedBody(body[..k], body[k + 1..], r);
    }
  }

  /** The numeral printed is the numeral read, whatever text comes behind it. */
  lemma NumeralTrip(x: string, r: string)
    requires Printed(x) && EndsNumeral(r)
    ensures NumeralLength(x + r) == |x|
  {
    UnsignedTail(x, r);
    PrintedBody(x, r);
  }

  function IntegerOf(x: string): int
    requires Printed(x) && '.' !in x
  {
    PointIsSeen(x);
    var size: int := ValueOf(Unsigned(x));
    if x[0] == '-' then -size else size
  }

  lemma PointIsSeen(x: string)
    requires Printed(x) && '.' !in x
    ensures Span(Unsigned(x)) == |Unsigned(x)| > 0
  {
    var body := Unsigned(x);
    assert forall i | 0 <= i < |body| :: body[i] in x;
  }

  lemma AllDigits(s: string)
    requires DigitsOnly(s)
    ensures Span(s) == |s| && '.' !in s && '-' !in s
  {
    SpanAt(s, |s|);
  }

  lemma DigitsPrinted(x: string, size: nat)
    requires Unsigned(x) == Digits(size)
    ensures Printed(x)
  {
    AllDigits(Digits(size));
    DigitsLead(size);
  }

  lemma DecimalShape(n: int)
    ensures var size: nat := if n < 0 then -n else n;
            Unsigned(Decimal(n)) == Digits(size) && '.' !in Decimal(n) && Decimal(n) != "-0"
  {
    var size: nat := if n < 0 then -n else n;
    AllDigits(Digits(size));
    DigitsLead(size);
    assert Digits(size)[0] != '-';
  }

  /** The decimal of an integer is printed without a point and read as the integer. */
  lemma DecimalRead(n: int)
    ensures Printed(Decimal(n)) && !Pointed(Decimal(n)) && IntegerOf(Decimal(n)) == n
  {
    var size: nat := if n < 0 then -n else n;
    DecimalShape(n);
    DigitsPrinted(Decimal(n), size);
    ValueOfDigits(size);
    assert n >= 0 ==> IsDigit(Decimal(n)[0]);
  }

  lemma UnsignedInteger(x: string)
    requires Printed(x) && '.' !in x
    ensures Digits(ValueOf(Unsigned(x))) == Unsigned(x)
  {
    PointIsSeen(x);
    DigitsOfValue(Unsigned(x));
  }

  lemma NegativeNumeral(n: nat)
    requires Digits(n) != "0"
    ensures Decimal(0 - n) == "-" + Digits(n)
  {
    DigitsLead(n);
  }

  /** A numeral without a point is the decimal of the integer it is read as, but for a
      negative zero. */
  lemma PrintedInteger(x: string)
    requires Printed(x) && !Pointed(x)
    ensures Decimal(IntegerOf(x)) == x
  {
    var body := Unsigned(x);
    UnsignedInteger(x);
    PointIsSeen(x);
    if x[0] == '-' {
      assert x == "-" + body;
      assert body != "0";
      NegativeNumeral(ValueOf(body));
    }
  }
}
