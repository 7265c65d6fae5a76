/** Finite floats by value, and the numerals they print: the switch of their shortest text
    to an exponent, the decimal it is read as, and its positional printing. */
module FloatNumerals {
  import opened Wrappers
  import opened Numerals
  import opened PayloadEncoding
  import opened PayloadDecoding
  import opened PayloadFloats

  /** A finite float: its sign, its shortest digits, and the position of the decimal point
      relative to them. Zero has the digit 0 and the point behind it. */
  datatype Value = Value(negative: bool, digits: string, point: int)

  /** The digits of a double are at most 17, without superfluous zeros at either end. */
  predicate Valid(v: Value) {
    && v.digits != "" && DigitsOnly(v.digits) && |v.digits| <= 17
    && ((v.digits == "0" && v.point == 1) || (v.digits[0] != '0' && v.digits[|v.digits| - 1] != '0'))
  }

  function Zeros(k: nat): string {
    seq(k, _ => '0')
  }

  /** The text of a float: with a point, or as one leading digit, the others and an exponent. */
  datatype Text = Plain(whole: string, part: string) | Scientific(digits: string, exponent: int)

  function TextOfValue(v: Value): Text
    requires Valid(v)
  {
    var n := |v.digits|;
    if !(-4 < v.point <= 16) then Scientific(v.digits, v.point - 1)
    else if v.point <= 0 then Plain("0", Zeros(-v.point) + v.digits)
    else if v.point >= n then Plain(v.digits + Zeros(v.point - n), "0")
    else Plain(v.digits[..v.point], v.digits[v.point..])
  }

  /** Digits without leading zeros, but for the last. */
  function Unpadded(s: string): string {
    if |s| > 1 && s[0] == '0' then Unpadded(s[1..]) else s
  }

  /** The coefficient and the exponent a text is read as. */
  function CoefficientOf(t: Text): string {
    match t
    case Plain(whole, part) => Unpadded(whole + part)
    case Scientific(digits, _) => Unpadded(digits)
  }

  function ExponentOf(t: Text): int {
    match t
    case Plain(_, part) => -|part|
    case Scientific(digits, exponent) => exponent - (|digits| - 1)
  }

  function WithPart(whole: string, part: string): string {
    whole + (if part == "" then "" else "." + part)
  }

  /** The positional printing of a coefficient and an exponent. */
  function Positional(c: string, e: int): string {
    var dot := |c| + e;
    if dot < 0 then WithPart("0", Zeros(-dot) + c)
    else if dot > |c| then WithPart(c + Zeros(dot - |c|), "")
    else WithPart(if dot == 0 then "0" else c[..dot], c[dot..])
  }

  function Body(v: Value): string
    requires Valid(v)
  {
    Positional(CoefficientOf(TextOfValue(v)), ExponentOf(TextOfValue(v)))
  }

  /** What the encoder writes for a finite float. */
  function Numeral(v: Value): string
    requires Valid(v)
  {
    (if v.negative then "-" else "") + Body(v)
  }

  // ------------------------------------------------------------- the printed text

  lemma Unpadding(s: string)
    requires s != "" && s[0] != '0'
    ensures Unpadded(s) == s
  {
  }

  lemma {:induction false} PaddingDropped(k: nat, s: string)
    requires s != "" && s[0] != '0'
    ensures Unpadded(Zeros(k) + s) == s
  {
    if k == 0 {
      assert Zeros(k) + s == s;
    } else {
      assert (Zeros(k) + s)[0] == '0' && (Zeros(k) + s)[1..] == Zeros(k - 1) + s;
      PaddingDropped(k - 1, s);
    }
  }

  /** From 10^16 on a float prints as its digits and zeros. */
  lemma LargeBody(v: Value)
    requires Valid(v) && v.point > 16
    ensures |v.digits| <= v.point && Body(v) == v.digits + Zeros(v.point - |v.digits|)
  {
    Unpadding(v.digits);
    assert Zeros(0) == "";
    assert v.digits[..|v.digits|] == v.digits && v.digits[|v.digits|..] == "";
  }

  lemma SmallBody(v: Value)
    requires Valid(v) && v.point <= 0
    ensures Body(v) == "0" + ("." + (Zeros(-v.point) + v.digits))
  {
    var k := -v.point;
    if v.point > -4 {
      assert Zeros(k + 1) + v.digits == "0" + (Zeros(k) + v.digits);
      PaddingDropped(k + 1, v.digits);
      assert k == 0 ==> Zeros(k) + v.digits == v.digits && v.digits[0..] == v.digits;
    } else {
      Unpadding(v.digits);
    }
  }

  lemma WholeBody(v: Value)
    requires Valid(v) && 0 < v.point <= 16 && v.point >= |v.digits|
    ensures Body(v) == (v.digits + Zeros(v.point - |v.digits|)) + ("." + "0")
  {
    var whole := v.digits + Zeros(v.point - |v.digits|);
    if v.digits == "0" {
      assert whole == "0" && whole + "0" == "00" && Unpadded("00") == "0";
      assert TextOfValue(v) == Plain("0", "0");
      assert Positional("0", -1) == WithPart("0", "0");
    } else {
      Unpadding(whole + "0");
      assert (whole + "0")[..|whole|] == whole && (whole + "0")[|whole|..] == "0";
    }
  }

  lemma SplitBody(v: Value)
    requires Valid(v) && 0 < v.point <= 16 && v.point < |v.digits|
    ensures Body(v) == v.digits[..v.point] + ("." + v.digits[v.point..])
  {
    assert v.digits[..v.point] + v.digits[v.point..] == v.digits;
    Unpadding(v.digits);
  }

  lemma PlainPrinted(body: string, negative: bool)
    requires body != "" && DigitsOnly(body) && (|body| > 1 ==> body[0] != '0')
    ensures var x := (if negative then "-" else "") + body; Printed(x) && '.' !in x
  {
    AllDigits(body);
    assert Unsigned((if negative then "-" else "") + body) == body;
  }

  lemma PointPrinted(whole: string, part: string, negative: bool)
    requires whole != "" && DigitsOnly(whole) && (|whole| > 1 ==> whole[0] != '0') && part != "" && DigitsOnly(part)
    ensures var x := (if negative then "-" else "") + (whole + ("." + part)); Printed(x) && '.' in x
  {
    var body := whole + ("." + part);
    var x := (if negative then "-" else "") + body;
    assert Unsigned(x) == body;
    AllDigits(part);
    assert body[|whole|] == '.' && body[|whole| + 1..] == part;
    SpanAt(body, |whole|);
    assert body[|whole|] in x;
  }

  lemma ZerosAreDigits(k: nat, s: string)
    requires DigitsOnly(s)
    ensures DigitsOnly(Zeros(k) + s) && DigitsOnly(s + Zeros(k))
  {
  }

  /** Every finite float prints a numeral, without a point exactly when its decimal point is
      more than 16 places behind the front of its digits. */
  lemma NumeralPrinted(v: Value)
    requires Valid(v)
    ensures Printed(Numeral(v)) && ('.' !in Numeral(v) <==> v.point > 16)
  {
    if v.point > 16 {
      LargeBody(v);
      ZerosAreDigits(v.point - |v.digits|, v.digits);
      PlainPrinted(Body(v), v.negative);
    } else if v.point <= 0 {
      SmallBody(v);
      ZerosAreDigits(-v.point, v.digits);
      PointPrinted("0", Zeros(-v.point) + v.digits, v.negative);
    } else if v.point >= |v.digits| {
      WholeBody(v);
      ZerosAreDigits(v.point - |v.digits|, v.digits);
      PointPrinted(v.digits + Zeros(v.point - |v.digits|), "0", v.negative);
    } else {
      SplitBody(v);
      PointPrinted(v.digits[..v.point], v.digits[v.point..], v.negative);
    }
  }

  // ------------------------------------------------------------- magnitude

  function Pow10(k: nat): nat {
    if k == 0 then 1 else 10 * Pow10(k - 1)
  }

  /** The float without its sign is at least 10^k: its digits as an integer, moved to the
      decimal point, both sides scaled to integers. */
  predicate AtLeast(v: Value, k: nat)
    requires Valid(v)
  {
    var shift := v.point - |v.digits|;
    if shift >= 0 then ValueOf(v.digits) * Pow10(shift) >= Pow10(k) else ValueOf(v.digits) >= Pow10(k) * Pow10(-shift)
  }

  lemma {:induction false} PowSum(a: nat, b: nat)
    ensures Pow10(a) * Pow10(b) == Pow10(a + b)
  {
    if a > 0 {
      PowSum(a - 1, b);
      assert Pow10(a) * Pow10(b) == 10 * (Pow10(a - 1) * Pow10(b));
    }
  }

  lemma {:induction false} PowMonotone(a: nat, b: nat)
    requires a <= b
    ensures 0 < Pow10(a) <= Pow10(b)
    decreases b
  {
    if b > 0 {
      if a == b { PowMonotone(a - 1, b - 1); } else { PowMonotone(a, b - 1); }
    }
  }

  /** A numeral of n digits lies below 10^n, and from 10^(n-1) on without a leading zero. */
  lemma {:induction false} DigitsBound(s: string)
    requires s != "" && DigitsOnly(s)
    ensures ValueOf(s) < Pow10(|s|)
    ensures s[0] != '0' ==> Pow10(|s| - 1) <= ValueOf(s)
  {
    var init, last := s[..|s| - 1], s[|s| - 1];
    assert s == init + [last] && IsDigit(last);
    ValueSnoc(init, last);
    if init != "" { DigitsBound(init); }
  }

  lemma Scaled(a: nat, b: nat, c: nat)
    requires a <= b
    ensures a * c <= b * c
  {
  }

  lemma ScaledStrictly(a: nat, b: nat, c: nat)
    requires a < b && c > 0
    ensures a * c < b * c
  {
  }

  lemma ShiftedBound(s: string, shift: nat)
    requires s != "" && DigitsOnly(s) && s[0] != '0'
    ensures Pow10(|s| - 1 + shift) <= ValueOf(s) * Pow10(shift)
  {
    DigitsBound(s);
    Scaled(Pow10(|s| - 1), ValueOf(s), Pow10(shift));
    PowSum(|s| - 1, shift);
  }

  lemma LargeIsAtLeast(v: Value)
    requires Valid(v) && v.point > 16
    ensures AtLeast(v, 16)
  {
    ShiftedBound(v.digits, v.point - |v.digits|);
    PowMonotone(16, v.point - 1);
  }

  lemma SmallIsBelow(v: Value)
    requires Valid(v) && v.point <= 16
    ensures !AtLeast(v, 16)
  {
    var n := |v.digits|;
    DigitsBound(v.digits);
    if v.point >= n {
      PowMonotone(0, v.point - n);
      ScaledStrictly(ValueOf(v.digits), Pow10(n), Pow10(v.point - n));
      PowSum(n, v.point - n);
      PowMonotone(v.point, 16);
    } else {
      PowSum(16, n - v.point);
      PowMonotone(n, 16 + (n - v.point));
    }
  }

  /** A float prints no point exactly when its magnitude is at least 10^16. */
  lemma PointlessIffLarge(v: Value)
    requires Valid(v)
    ensures Printed(Numeral(v)) && ('.' !in Numeral(v) <==> AtLeast(v, 16))
  {
    NumeralPrinted(v);
    if v.point > 16 { LargeIsAtLeast(v); } else { SmallIsBelow(v); }
  }

  lemma Shifted(a: nat, p: nat)
    ensures a * (10 * p) == 10 * (a * p)
  {
  }

  lemma ZerosSnoc(s: string, k: nat)
    requires k > 0
    ensures s + Zeros(k) == (s + Zeros(k - 1)) + ['0']
  {
  }

  lemma {:induction false} ValueZeros(s: string, k: nat)
    requires DigitsOnly(s)
    ensures DigitsOnly(s + Zeros(k)) && ValueOf(s + Zeros(k)) == ValueOf(s) * Pow10(k)
  {
    if k == 0 {
      assert s + Zeros(k) == s;
    } else {
      ValueZeros(s, k - 1);
      ZerosSnoc(s, k);
      ValueSnoc(s + Zeros(k - 1), '0');
      Shifted(ValueOf(s), Pow10(k - 1));
    }
  }

  /** The integer of a large float. */
  function WholeValue(v: Value): int
    requires Valid(v) && v.point > 16
  {
    var size: int := ValueOf(v.digits) * Pow10(v.point - |v.digits|);
    if v.negative then -size else size
  }

  lemma LargeShape(v: Value)
    requires Valid(v) && v.point > 16
    ensures Body(v) != "" && IsDigit(Body(v)[0]) && Unsigned(Numeral(v)) == Body(v) && |Numeral(v)| > 2
    ensures Numeral(v)[0] == '-' <==> v.negative
  {
    LargeBody(v);
    assert Body(v)[0] == v.digits[0];
  }

  lemma LargeNumber(v: Value)
    requires Valid(v) && v.point > 16
    ensures !Pointed(Numeral(v)) && IntegerOf(Numeral(v)) == WholeValue(v)
  {
    NumeralPrinted(v);
    LargeShape(v);
    LargeBody(v);
    ValueZeros(v.digits, v.point - |v.digits|);
  }

  lemma CollidesAt(v: Value, n: int)
    requires Valid(v)
    ensures Encode(Float(Some(Numeral(v)))) == Encode(Integer(n)) <==> v.point > 16 && n == WholeValue(v)
  {
    NumeralPrinted(v);
    DecimalRead(n);
    if v.point > 16 {
      LargeNumber(v);
      PrintedInteger(Numeral(v));
    }
  }

  /** A float shares its text with an integer exactly when its magnitude is at least 10^16,
      and then with the integer of the same value and no other. */
  lemma ValueCollision(v: Value)
    requires Valid(v)
    ensures forall n :: Encode(Float(Some(Numeral(v)))) == Encode(Integer(n)) <==> v.point > 16 && n == WholeValue(v)
    ensures (exists n :: Encode(Float(Some(Numeral(v)))) == Encode(Integer(n))) <==> AtLeast(v, 16)
  {
    forall n ensures Encode(Float(Some(Numeral(v)))) == Encode(Integer(n)) <==> v.point > 16 && n == WholeValue(v) {
      CollidesAt(v, n);
    }
    PointlessIffLarge(v);
    NumeralPrinted(v);
    if v.point > 16 {
      assert Encode(Float(Some(Numeral(v)))) == Encode(Integer(WholeValue(v)));
    }
  }

  lemma NegativeZero(v: Value)
    requires Valid(v)
    ensures Numeral(v) != "-0"
  {
    NumeralPrinted(v);
    if v.point > 16 {
      LargeBody(v);
    } else {
      assert '.' in Numeral(v) && '.' !in "-0";
    }
  }

  /** So the floats a payload text tells from integers are those below 10^16. */
  lemma ExactIffSmall(v: Value)
    requires Valid(v)
    ensures Printable(Float(Some(Numeral(v))))
    ensures Exact(Float(Some(Numeral(v)))) <==> !AtLeast(v, 16)
  {
    PointlessIffLarge(v);
    NegativeZero(v);
  }
}
