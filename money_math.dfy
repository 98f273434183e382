/**
 * The decimal money helper of src/utils/math.ts: every operation works on exact
 * decimal values (big.js), treats a falsy operand as 0, and rounds quotients
 * half-up to Big.DP = 10 fractional digits. Values are Dafny reals, so sums,
 * differences and products are exact, as they are in big.js.
 */
module MoneyMath {
  import opened Wrappers
  import opened Digits

  /** Big.DP: the number of fractional digits a quotient keeps. */
  const DP: nat := 10

  /** The message big.js throws when asked to divide by zero. */
  const DivisionByZero: string := "[big.js] Division by zero"

  /** An argument of the helper: a JavaScript number, a numeric string, or a falsy value. */
  datatype Operand =
    | Undefined
    | Null
    | NaN
    | EmptyString
    | Num(value: real)      // a finite number
    | Numeric(value: real)  // a non-empty numeric string such as "0.10" (truthy even when it denotes 0)

  predicate Truthy(a: Operand) {
    match a
    case Num(v) => v != 0.0
    case Numeric(_) => true
    case _ => false
  }

  /** The decimal value of `new Big(a || 0)`. */
  function Value(a: Operand): (v: real)
    ensures !Truthy(a) ==> v == 0.0
  {
    match a
    case Num(v) => v
    case Numeric(v) => v
    case _ => 0.0
  }

  function Abs(x: real): real {
    if x < 0.0 then -x else x
  }

  /** `k` is the integer nearest to `y`, a tie going away from zero (Big.RM = roundHalfUp). */
  predicate NearestHalfUp(y: real, k: int) {
    && y - 0.5 <= k as real <= y + 0.5
    && (k as real == y + 0.5 ==> y > 0.0)
    && (k as real == y - 0.5 ==> y < 0.0)
  }

  function RoundHalfUp(y: real): (k: int)
    ensures NearestHalfUp(y, k)
  {
    if y >= 0.0 then (y + 0.5).Floor else -(0.5 - y).Floor
  }

  /** At most one integer is the half-up rounding of `y`. */
  lemma NearestHalfUpUnique(y: real, k1: int, k2: int)
    requires NearestHalfUp(y, k1) && NearestHalfUp(y, k2)
    ensures k1 == k2
  {
  }

  /** 10^DP: one unit of the last digit a quotient keeps is 1 / Unit. */
  const Unit: real := 10_000_000_000.0

  /** `r` has at most DP fractional digits and is the half-up rounding of `x` to DP places. */
  predicate RoundedToDP(x: real, r: real) {
    (r * Unit).Floor as real == r * Unit && NearestHalfUp(x * Unit, (r * Unit).Floor)
  }

  /** What big.js does to an exact quotient: keep DP places, rounding half-up. */
  function RoundDP(x: real): (r: real)
    ensures RoundedToDP(x, r)
  {
    RoundHalfUp(x * Unit) as real / Unit
  }

  /** A value that already has at most DP fractional digits is its own rounding. */
  lemma RoundDPExact(x: real)
    requires (x * Unit).Floor as real == x * Unit
    ensures RoundDP(x) == x
  {
    var k := (x * Unit).Floor;
    assert NearestHalfUp(x * Unit, k);
    NearestHalfUpUnique(x * Unit, RoundHalfUp(x * Unit), k);
  }

  // math.add: exact sum, falsy operands counting as 0
  function Add(a: Operand, b: Operand): (r: real)
    ensures !Truthy(a) ==> r == Value(b)
    ensures !Truthy(b) ==> r == Value(a)
  {
    Value(a) + Value(b)
  }

  // math.optAdd: the same expression as add, with null and undefined admitted by its type
  function OptAdd(a: Operand, b: Operand): (r: real)
    ensures r == Add(a, b)
  {
    Value(a) + Value(b)
  }

  // math.sub
  function Sub(a: Operand, b: Operand): (r: real)
    ensures !Truthy(b) ==> r == Value(a)
    ensures !Truthy(a) ==> r == -Value(b)
  {
    Value(a) - Value(b)
  }

  // math.mul
  function Mul(a: Operand, b: Operand): (r: real)
    ensures !Truthy(a) || !Truthy(b) ==> r == 0.0
  {
    Value(a) * Value(b)
  }

  // math.div: 0 for a zero divisor, otherwise the quotient rounded half-up to DP places
  function Div(a: Operand, b: Operand): (r: real)
    ensures Value(b) == 0.0 ==> r == 0.0
    ensures Value(b) != 0.0 ==> RoundedToDP(Value(a) / Value(b), r)
  {
    var divisor := Value(b);
    if divisor == 0.0 then 0.0 else RoundDP(Value(a) / divisor)
  }

  /**
   * math.calcExchange: a falsy rate gives 0; otherwise big.js divides, and so throws
   * when the rate is a numeric string that denotes zero.
   */
  function CalcExchange(amount: Operand, rate: Operand): (r: Result<real, string>)
    ensures !(rate.Numeric? && rate.value == 0.0) ==> r == Success(Div(amount, rate))
    ensures r.Failure? <==> rate.Numeric? && rate.value == 0.0
    ensures r.Failure? ==> r.error == DivisionByZero
  {
    if !Truthy(rate) then Success(0.0)
    else if Value(rate) == 0.0 then Failure(DivisionByZero)
    else Success(RoundDP(Value(amount) / Value(rate)))
  }

  // ---------------------------------------------------------------------------
  // toFixed and toPercent

  /** `x` rounded half-up to `dp` fractional digits, counted in units of 10^-dp. */
  function RoundUnits(x: real, dp: nat): int {
    RoundHalfUp(x * Pow10(dp) as real)
  }

  /** The unsigned text of `k / 10^dp`: integer digits, then '.' and exactly `dp` digits. */
  function FixedDigits(k: nat, dp: nat): string {
    if dp == 0 then NatToText(k)
    else
      Pointed(ZeroPad(NatToText(k), dp + 1), dp)
  }

  /** `t` with '.' written before its last `dp` characters. */
  function Pointed(t: string, dp: nat): string
    requires |t| >= dp
  {
    t[..|t| - dp] + "." + t[|t| - dp..]
  }

  /**
   * big.js `toFixed(dp)`: the magnitude is rounded half-up to `dp` places and written in
   * plain notation; the '-' sign follows the unrounded value, so a small negative value
   * is written "-0.00".
   */
  function ToFixed(x: real, dp: nat): (s: string)
    ensures FixedForm(s, dp)
    ensures |s| > 0 && (s[0] == '-' <==> x < 0.0)
    ensures FixedUnits(s, dp) == RoundUnits(x, dp)
  {
    SignedFixed(MagnitudeUnits(x, dp), x < 0.0, dp)
  }

  /** The magnitude of `x` rounded half-up to `dp` places, in units of 10^-dp: rounding is symmetric about zero. */
  function MagnitudeUnits(x: real, dp: nat): (k: nat)
    ensures RoundUnits(x, dp) == (if x < 0.0 then -(k as int) else k)
  {
    var p := Pow10(dp) as real;
    SymmetricRounding(x, p);
    RoundHalfUp(Abs(x) * p)
  }

  /** The text of `k / 10^dp`, preceded by '-' when `negative`. */
  function SignedFixed(k: nat, negative: bool, dp: nat): (s: string)
    ensures FixedForm(s, dp)
    ensures |s| > 0 && (s[0] == '-' <==> negative)
    ensures FixedUnits(s, dp) == (if negative then -(k as int) else k)
  {
    SignedFixedDigits(k, dp, negative);
    (if negative then "-" else "") + FixedDigits(k, dp)
  }

  /** The text after an optional leading '-'. */
  function Unsigned(s: string): string {
    if |s| > 0 && s[0] == '-' then s[1..] else s
  }

  /** The digits of an unsigned fixed-form text with its point (`dp` places from the end) taken out. */
  function WithoutPoint(u: string, dp: nat): string
    requires |u| >= dp + 1
  {
    if dp == 0 then u else u[..|u| - dp - 1] + u[|u| - dp..]
  }

  /** The integer digits of an unsigned fixed-form text: everything before the point. */
  function IntegerPart(u: string, dp: nat): string
    requires |u| >= dp + 1
  {
    if dp == 0 then u else u[..|u| - dp - 1]
  }

  /**
   * A plain-notation decimal: an optional '-', integer digits without a superfluous
   * leading zero, then '.' and exactly `dp` digits when dp > 0.
   */
  predicate FixedForm(s: string, dp: nat) {
    var u := Unsigned(s);
    && |u| >= (if dp == 0 then 1 else dp + 2)
    && (dp > 0 ==> u[|u| - dp - 1] == '.')
    && AllDigits(WithoutPoint(u, dp))
    && (IntegerPart(u, dp)[0] == '0' ==> |IntegerPart(u, dp)| == 1)
  }

  /** The value of a fixed-form text with `dp` fractional digits, counted in units of 10^-dp. */
  function FixedUnits(s: string, dp: nat): int
    requires FixedForm(s, dp)
  {
    var m: int := TextToNat(WithoutPoint(Unsigned(s), dp));
    if |s| > 0 && s[0] == '-' then -m else m
  }

  lemma SignedFixedDigits(k: nat, dp: nat, negative: bool)
    ensures var s := (if negative then "-" else "") + FixedDigits(k, dp);
      && FixedForm(s, dp)
      && |s| > 0 && (s[0] == '-' <==> negative)
      && FixedUnits(s, dp) == (if negative then -(k as int) else k)
  {
    var d := FixedDigits(k, dp);
    FixedDigitsMeaning(k, dp);
    if negative {
      var s := "-" + d;
      assert Unsigned(s) == d;
    } else {
      assert "" + d == d;
    }
  }

  lemma FixedDigitsMeaning(k: nat, dp: nat)
    ensures var d := FixedDigits(k, dp);
      && FixedForm(d, dp) && |d| > 0 && d[0] != '-' && Unsigned(d) == d
      && TextToNat(WithoutPoint(d, dp)) == k
  {
    var n := NatToText(k);
    TextRoundTrip(k);
    if dp > 0 {
      var t := ZeroPad(n, dp + 1);
      ZeroPadValue(n, dp + 1);
      PointedDigits(t, dp);
      if |n| > dp + 1 {
        assert t == n;
        assert t[..|t| - dp][0] == n[0];
      }
    } else {
      assert FixedDigits(k, dp) == n;
      assert IsDigit(n[0]);
      assert Unsigned(n) == n;
    }
  }

  /** A digit string with '.' written before its last `dp > 0` digits is in fixed form and denotes the same units. */
  lemma PointedDigits(t: string, dp: nat)
    requires AllDigits(t) && |t| > dp > 0
    ensures var d := Pointed(t, dp);
      && |d| > 0 && d[0] != '-' && Unsigned(d) == d
      && |d| >= dp + 2 && d[|d| - dp - 1] == '.'
      && WithoutPoint(d, dp) == t && AllDigits(WithoutPoint(d, dp))
      && IntegerPart(d, dp) == t[..|t| - dp]
  {
    PointSplit(t, dp);
    var d := Pointed(t, dp);
    assert IsDigit(t[0]);
    assert Unsigned(d) == d;
  }

  /** Writing '.' before the last `dp` digits of `t`: the digits around the point are `t` again. */
  lemma PointSplit(t: string, dp: nat)
    requires AllDigits(t) && |t| > dp > 0
    ensures var s := Pointed(t, dp);
      && |s| == |t| + 1 && s[0] == t[0] && s[|s| - dp - 1] == '.'
      && WithoutPoint(s, dp) == t
      && s[..|s| - dp - 1] == t[..|t| - dp]
  {
    var intPart, frac := t[..|t| - dp], t[|t| - dp..];
    var s := intPart + "." + frac;
    assert s[..|s| - dp - 1] == intPart;
    assert s[|s| - dp..] == frac;
    assert intPart + frac == t;
  }

  /** Half-up rounding is symmetric about zero, so the rounded magnitude carries the sign of `x`. */
  lemma SymmetricRounding(x: real, p: real)
    requires p > 0.0
    ensures RoundHalfUp(Abs(x) * p) >= 0
    ensures RoundHalfUp(x * p) == (if x < 0.0 then -RoundHalfUp(Abs(x) * p) else RoundHalfUp(Abs(x) * p))
  {
    NonNegativeProduct(Abs(x), p);
    if x < 0.0 {
      assert Abs(x) * p == -(x * p);
    }
  }

  lemma NonNegativeProduct(a: real, b: real)
    requires a >= 0.0 && b >= 0.0
    ensures a * b >= 0.0
  {
  }

  /** The largest number of decimal places big.js `toFixed` accepts (MAX_DP). */
  const MaxDP: nat := 1_000_000

  /** The message big.js throws for a number of decimal places it does not accept. */
  const InvalidDecimalPlaces: string := "[big.js] Invalid decimal places"

  /**
   * math.toPercent: the value times 100, rounded half-up to `decimals` places (default 2);
   * big.js refuses more than MaxDP places.
   */
  function ToPercent(vals: Operand, decimals: nat := 2): (r: Result<string, string>)
    ensures r.Failure? <==> decimals > MaxDP
    ensures r.Failure? ==> r.error == InvalidDecimalPlaces
    ensures r.Success? ==> FixedForm(r.value, decimals)
    ensures r.Success? ==> |r.value| > 0 && (r.value[0] == '-' <==> Value(vals) * 100.0 < 0.0)
    ensures r.Success? ==> FixedUnits(r.value, decimals) == RoundUnits(Value(vals) * 100.0, decimals)
  {
    if decimals > MaxDP then Failure(InvalidDecimalPlaces)
    else Success(ToFixed(Value(vals) * 100.0, decimals))
  }

  // ---------------------------------------------------------------------------
  // Properties

  /** Decimal addition has no binary drift: 0.1 + 0.2 is exactly 0.3. */
  lemma AddIsExact()
    ensures Add(Num(0.1), Num(0.2)) == 0.3
    ensures Add(Numeric(0.1), Num(0.2)) == 0.3
  {
  }

  /** Subtracting what was added gives back the first operand's value. */
  lemma AddSubInverse(a: Operand, b: Operand)
    ensures Sub(Num(Add(a, b)), b) == Value(a)
  {
  }

  /** Dividing a product by its nonzero factor recovers the other factor, rounded to DP places. */
  lemma DivUndoesMul(a: Operand, b: Operand)
    requires Value(b) != 0.0
    ensures Div(Num(Mul(a, b)), b) == RoundDP(Value(a))
  {
    var x, y := Value(a), Value(b);
    assert Value(Num(Mul(a, b))) == x * y;
    MulDivCancel(x, y);
    assert Div(Num(Mul(a, b)), b) == RoundDP((x * y) / y);
  }

  lemma MulDivCancel(x: real, y: real)
    requires y != 0.0
    ensures (x * y) / y == x
  {
  }

  /** For an amount with at most DP fractional digits, division undoes multiplication exactly. */
  lemma DivUndoesMulExactly(a: Operand, b: Operand)
    requires Value(b) != 0.0
    requires (Value(a) * Unit).Floor as real == Value(a) * Unit
    ensures Div(Num(Mul(a, b)), b) == Value(a)
  {
    DivUndoesMul(a, b);
    RoundDPExact(Value(a));
  }

  /** A zero divisor, in any of its falsy or numeric forms, yields 0. */
  lemma DivByZero(x: Operand)
    ensures Div(x, Undefined) == 0.0 && Div(x, Null) == 0.0 && Div(x, NaN) == 0.0
    ensures Div(x, EmptyString) == 0.0 && Div(x, Num(0.0)) == 0.0 && Div(x, Numeric(0.0)) == 0.0
    ensures CalcExchange(x, Num(0.0)) == Success(0.0)
  {
  }

  /** 0.0595 as a percentage with two decimals is "5.95". */
  lemma ToPercentExample()
    ensures ToPercent(Num(0.0595), 2) == Success("5.95")
  {
    assert Value(Num(0.0595)) * 100.0 == 5.95;
    assert Pow10(2) == 100;
    assert Abs(5.95) * 100.0 == 595.0;
    assert RoundHalfUp(595.0) == 595;
    assert NatToText(5) == "5";
    assert NatToText(95) == "95";
    assert ZeroPad("95", 2) == "95";
    assert FixedDigits(595, 2) == "5" + "." + "95";
    assert ToFixed(5.95, 2) == "5.95";
  }

  /** The sign follows the unrounded value: -0.00001 as a percentage is "-0.00". */
  lemma ToPercentNegativeZero()
    ensures ToPercent(Num(-0.00001), 2) == Success("-0.00")
  {
    assert Value(Num(-0.00001)) * 100.0 == -0.001;
    SmallNegativeUnits();
    ZeroHundredths();
    assert ToFixed(-0.001, 2) == "-" + "0.00" == "-0.00";
    assert ToPercent(Num(-0.00001), 2) == Success(ToFixed(-0.001, 2));
  }

  lemma SmallNegativeUnits()
    ensures MagnitudeUnits(-0.001, 2) == 0
  {
    assert Pow10(2) == 100;
    assert Abs(-0.001) * 100.0 == 0.1;
  }

  lemma ZeroHundredths()
    ensures FixedDigits(0, 2) == "0.00"
  {
    assert NatToText(0) == "0";
    assert Zeros(1) == "0";
    assert Zeros(2) == "0" + "0";
    assert ZeroPad("0", 3) == "00" + "0";
    assert Pointed("000", 2) == "0" + "." + "00";
  }
}
