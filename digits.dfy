/**
 * Decimal digit text of natural numbers: the rendering that JavaScript's `String(n)`
 * and big.js's `toFixed` use for the integer digits of a number, and its reader.
 */
module Digits {

  predicate IsDigit(c: char) {
    '0' <= c <= '9'
  }

  predicate AllDigits(s: string) {
    forall i :: 0 <= i < |s| ==> IsDigit(s[i])
  }

  function DigitChar(d: nat): (c: char)
    requires d < 10
    ensures IsDigit(c)
  {
    ('0' as int + d) as char
  }

  function DigitValue(c: char): (d: nat)
    requires IsDigit(c)
    ensures d < 10
  {
    c as int - '0' as int
  }

  function Pow10(n: nat): (p: nat)
    ensures p >= 1
  {
    if n == 0 then 1 else 10 * Pow10(n - 1)
  }

  /** The digits of `n`, most significant first, without leading zeros. */
  function NatToText(n: nat): (s: string)
    ensures |s| >= 1 && AllDigits(s)
    ensures s[0] == '0' ==> n == 0 && |s| == 1
  {
    if n < 10 then [DigitChar(n)] else NatToText(n / 10) + [DigitChar(n % 10)]
  }

  /** The number a digit string denotes (leading zeros allowed, "" denotes 0). */
  function TextToNat(s: string): nat
    requires AllDigits(s)
  {
    if s == [] then 0 else 10 * TextToNat(s[..|s| - 1]) + DigitValue(s[|s| - 1])
  }

  function Zeros(n: nat): (z: string)
    ensures |z| == n && AllDigits(z)
  {
    if n == 0 then [] else Zeros(n - 1) + ['0']
  }

  /** `s` preceded by as many '0' as it takes to reach `width` characters. */
  function ZeroPad(s: string, width: nat): (r: string)
    ensures |s| <= width ==> |r| == width
    ensures |s| > width ==> r == s
  {
    if |s| < width then Zeros(width - |s|) + s else s
  }

  lemma {:induction false} TextRoundTrip(n: nat)
    ensures TextToNat(NatToText(n)) == n
  {
    var s := NatToText(n);
    if n >= 10 {
      TextRoundTrip(n / 10);
      assert s[..|s| - 1] == NatToText(n / 10);
    }
  }

  lemma AllDigitsConcat(a: string, b: string)
    requires AllDigits(a) && AllDigits(b)
    ensures AllDigits(a + b)
  {
    forall i | 0 <= i < |a + b| ensures IsDigit((a + b)[i]) {
      if i < |a| { assert (a + b)[i] == a[i]; } else { assert (a + b)[i] == b[i - |a|]; }
    }
  }

  lemma MulTenShift(x: int, p: int)
    ensures x * (10 * p) == 10 * (x * p)
  {
  }

  lemma {:induction false} TextConcat(a: string, b: string)
    requires AllDigits(a) && AllDigits(b)
    ensures AllDigits(a + b)
    ensures TextToNat(a + b) == TextToNat(a) * Pow10(|b|) + TextToNat(b)
  {
    AllDigitsConcat(a, b);
    if b != [] {
      var ab := a + b;
      var b' := b[..|b| - 1];
      var last := DigitValue(b[|b| - 1]);
      assert ab[..|ab| - 1] == a + b';
      assert ab[|ab| - 1] == b[|b| - 1];
      TextConcat(a, b');
      var x, y, p := TextToNat(a), TextToNat(b'), Pow10(|b'|);
      var z := TextToNat(a + b');
      assert z == x * p + y;
      assert TextToNat(ab) == 10 * z + last;
      assert TextToNat(b) == 10 * y + last;
      assert Pow10(|b|) == 10 * p;
      MulTenShift(x, p);
    } else {
      assert a + b == a;
    }
  }

  lemma {:induction false} ZerosDenoteZero(n: nat)
    ensures TextToNat(Zeros(n)) == 0
  {
    if n > 0 {
      ZerosDenoteZero(n - 1);
      assert Zeros(n)[..n - 1] == Zeros(n - 1);
    }
  }

  /** Padding with leading zeros keeps the number a digit string denotes. */
  lemma ZeroPadValue(s: string, width: nat)
    requires AllDigits(s)
    ensures AllDigits(ZeroPad(s, width))
    ensures TextToNat(ZeroPad(s, width)) == TextToNat(s)
  {
    if |s| < width {
      ZerosDenoteZero(width - |s|);
      TextConcat(Zeros(width - |s|), s);
    }
  }
}
