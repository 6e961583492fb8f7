/**
 * The parts of JavaScript number semantics the app relies on, over exact reals:
 * parsed text (NaN or a value), `|| 0`, comparisons, Math.round, toFixed(1) and
 * the decimal rendering of integers in template strings.
 */
module JsNumber {

  /** A number obtained by parsing text: NaN, or a finite value. */
  datatype Num = NaN | Fin(v: real)

  /** `x || 0`: NaN and 0 are falsy, so both become 0; every other value is kept. */
  function OrZero(x: Num): (r: real)
    ensures x.Fin? ==> r == x.v
    ensures x.NaN? ==> r == 0.0
  {
    match x
    case NaN => 0.0
    case Fin(v) => if v == 0.0 then 0.0 else v
  }

  /** `a + b`: NaN when either side is NaN. */
  function Add(a: Num, b: Num): (r: Num)
    ensures r.Fin? <==> a.Fin? && b.Fin?
    ensures r.Fin? ==> r.v == a.v + b.v
  {
    match (a, b)
    case (Fin(x), Fin(y)) => Fin(x + y)
    case _ => NaN
  }

  /** `x >= y`: false whenever x is NaN. */
  predicate AtLeast(x: Num, y: real) {
    match x
    case NaN => false
    case Fin(v) => v >= y
  }

  /** `x <= y`: false whenever x is NaN. */
  predicate AtMost(x: Num, y: real) {
    match x
    case NaN => false
    case Fin(v) => v <= y
  }

  /** Math.round: the integer nearest to x, ties going towards +infinity. */
  function Round(x: real): (r: int)
    ensures r as real - 0.5 <= x < r as real + 0.5
  {
    (x + 0.5).Floor
  }

  /** Rounding an integer gives it back, so rounding twice is rounding once. */
  lemma RoundOfInteger(k: int)
    ensures Round(k as real) == k
  {
  }

  /** Rounding commutes with shifting by a whole number. */
  lemma RoundShift(x: real, k: int)
    ensures Round(x + k as real) == Round(x) + k
  {
  }

  /** Rounding is monotone. */
  lemma RoundMonotone(x: real, y: real)
    requires x <= y
    ensures Round(x) <= Round(y)
  {
  }

  /** r is a whole number of tenths. */
  predicate IsTenths(r: real) {
    (r * 10.0).Floor as real == r * 10.0
  }

  /**
   * parseFloat(x.toFixed(1)): x rounded to one decimal place. toFixed rounds
   * the magnitude, a tie going to the larger magnitude, and then restores the sign.
   */
  function ToFixed1(x: real): (r: real)
    ensures IsTenths(r)
    ensures -0.05 <= r - x <= 0.05
    ensures x >= 0.0 ==> -0.05 < r - x
    ensures x < 0.0 ==> r - x < 0.05
    ensures x >= 0.0 ==> r >= 0.0
  {
    if x < 0.0 then
      var k := Round(-x * 10.0);
      TenthsOfInteger(-k);
      (-k) as real / 10.0
    else
      var k := Round(x * 10.0);
      TenthsOfInteger(k);
      k as real / 10.0
  }

  lemma TenthsOfInteger(k: int)
    ensures IsTenths(k as real / 10.0)
  {
    assert (k as real / 10.0) * 10.0 == k as real;
  }

  /** A value no more than half a tenth below a positive whole number of tenths t reaches t after toFixed(1). */
  lemma ToFixed1AtLeast(x: real, t: real)
    requires IsTenths(t) && t > 0.0 && x >= t - 0.05
    ensures ToFixed1(x) >= t
  {
    var k := (t * 10.0).Floor;
    assert k >= 1;
    assert x * 10.0 + 0.5 >= k as real;
    assert Round(x * 10.0) >= k;
  }

  /** A value more than half a tenth below a whole number of tenths t stays below t after toFixed(1). */
  lemma ToFixed1Below(x: real, t: real)
    requires IsTenths(t) && t > 0.0 && x < t - 0.05
    ensures ToFixed1(x) < t
  {
    if x >= 0.0 {
      var k := (t * 10.0).Floor;
      assert x * 10.0 + 0.5 < k as real;
      assert Round(x * 10.0) < k;
    }
  }

  // ---------------------------------------------------------------------------
  // Decimal rendering of integers, as `${n}` prints them.

  predicate IsDigit(c: char) {
    '0' <= c <= '9'
  }

  function DigitChar(d: nat): (c: char)
    requires d < 10
    ensures IsDigit(c)
  {
    ['0', '1', '2', '3', '4', '5', '6', '7', '8', '9'][d]
  }

  function DigitValue(c: char): (d: nat)
    requires IsDigit(c)
    ensures d < 10
  {
    (c as int - '0' as int) as nat
  }

  lemma DigitValueOfChar(d: nat)
    requires d < 10
    ensures DigitValue(DigitChar(d)) == d
  {
  }

  /** The decimal digits of n, most significant first, without leading zeros. */
  function Digits(n: nat): (s: string)
    ensures |s| >= 1
    ensures forall i :: 0 <= i < |s| ==> IsDigit(s[i])
    ensures |s| > 1 ==> s[0] != '0'
  {
    if n < 10 then [DigitChar(n)] else Digits(n / 10) + [DigitChar(n % 10)]
  }

  /** The number a string of decimal digits denotes. */
  function DigitsValue(s: string): nat
    requires forall i :: 0 <= i < |s| ==> IsDigit(s[i])
  {
    if |s| == 0 then 0 else DigitsValue(s[..|s| - 1]) * 10 + DigitValue(s[|s| - 1])
  }

  /** Reading back the digits of n gives n. */
  lemma {:induction false} DigitsRoundTrip(n: nat)
    ensures DigitsValue(Digits(n)) == n
  {
    var s := Digits(n);
    if n < 10 {
      DigitValueOfChar(n);
    } else {
      DigitsRoundTrip(n / 10);
      assert s[..|s| - 1] == Digits(n / 10);
      DigitValueOfChar(n % 10);
    }
  }

  /** Text of the form IntToString produces: an optional '-' followed by decimal digits. */
  predicate IsIntText(s: string) {
    && |s| >= 1
    && (s[0] == '-' || IsDigit(s[0]))
    && forall i :: 1 <= i < |s| ==> IsDigit(s[i])
  }

  /** `${n}` for an integer n. */
  function IntToString(n: int): (s: string)
    ensures |s| >= 1
    ensures n < 0 <==> s[0] == '-'
  {
    if n < 0 then "-" + Digits(-n) else Digits(n)
  }

  /** Reads back what IntToString prints. */
  function StringToInt(s: string): int
    requires IsIntText(s)
  {
    if s[0] == '-' then -(DigitsValue(s[1..]) as int) else DigitsValue(s)
  }

  /** Rendering an integer and reading it back is the identity. */
  lemma IntToStringRoundTrip(n: int)
    ensures IsIntText(IntToString(n)) && StringToInt(IntToString(n)) == n
  {
    if n < 0 {
      NegativeRoundTrip(n);
    } else {
      DigitsRoundTrip(n);
    }
  }

  lemma NegativeRoundTrip(n: int)
    requires n < 0
    ensures IsIntText(IntToString(n)) && StringToInt(IntToString(n)) == n
  {
    var m: nat := -n;
    var d := Digits(m);
    var s := IntToString(n);
    assert s == "-" + d;
    forall i | 1 <= i < |s|
      ensures IsDigit(s[i])
    {
      assert s[i] == d[i - 1];
    }
    assert s[1..] == d;
    DigitsRoundTrip(m);
    assert StringToInt(s) == -(DigitsValue(d) as int) == n;
  }

  /** Distinct integers render differently. */
  lemma IntToStringInjective(a: int, b: int)
    requires IntToString(a) == IntToString(b)
    ensures a == b
  {
    IntToStringRoundTrip(a);
    IntToStringRoundTrip(b);
  }
}
