/** Decimal text for natural numbers and integers, as Python's `str(int)` and
    the zero-padded `%Y`/`%m`/`%d` fields of `strftime` print them. */
module Decimal {

  predicate IsDigit(c: char) {
    '0' <= c <= '9'
  }

  predicate AllDigits(s: string) {
    forall i :: 0 <= i < |s| ==> IsDigit(s[i])
  }

  function DigitChar(d: nat): (c: char)
    requires d < 10
    ensures IsDigit(c)
  {
    "0123456789"[d]
  }

  function DigitValue(c: char): (d: nat)
    requires IsDigit(c)
    ensures d < 10
  {
    (c as int - '0' as int) as nat
  }

  /** Shortest decimal text of `n` ("0" for zero). */
  function NatText(n: nat): (s: string)
    ensures |s| >= 1 && AllDigits(s)
    decreases n
  {
    if n < 10 then [DigitChar(n)] else NatText(n / 10) + [DigitChar(n % 10)]
  }

  /** The value a string of decimal digits denotes (most significant first). */
  function DigitsValue(s: string): nat
    requires AllDigits(s)
  {
    if s == [] then 0 else DigitsValue(s[..|s| - 1]) * 10 + DigitValue(s[|s| - 1])
  }

  function Pow10(w: nat): (p: nat)
    ensures p >= 1
  {
    if w == 0 then 1 else 10 * Pow10(w - 1)
  }

  function Zeros(k: nat): (s: string)
    ensures |s| == k && AllDigits(s)
  {
    if k == 0 then "" else Zeros(k - 1) + "0"
  }

  /** `n` left-padded with zeros to at least `width` digits, as `%0<width>d` prints it. */
  function Padded(n: nat, width: nat): (s: string)
    ensures AllDigits(s)
    ensures |s| >= width
  {
    var t := NatText(n);
    if |t| >= width then t else Zeros(width - |t|) + t
  }

  /** Python's `str(i)` for an integer. */
  function IntText(i: int): (s: string)
    ensures |s| >= 1
    ensures i >= 0 <==> AllDigits(s)
  {
    if i >= 0 then NatText(i)
    else
      var s := "-" + NatText(-i);
      assert !IsDigit(s[0]);
      s
  }

  lemma {:induction false} NatTextRoundTrip(n: nat)
    ensures DigitsValue(NatText(n)) == n
    decreases n
  {
    var t := NatText(n);
    if n >= 10 {
      NatTextRoundTrip(n / 10);
      assert t[..|t| - 1] == NatText(n / 10);
      assert DigitValue(t[|t| - 1]) == n % 10;
    }
  }

  lemma {:induction false} NatTextLength(n: nat, w: nat)
    requires n < Pow10(w)
    ensures |NatText(n)| <= w || (n == 0 && w == 0)
    decreases n
  {
    if n >= 10 {
      assert w >= 1;
      NatTextLength(n / 10, w - 1);
    }
  }

  lemma {:induction false} LeadingZerosValue(k: nat, s: string)
    requires AllDigits(s)
    ensures DigitsValue(Zeros(k) + s) == DigitsValue(s)
    decreases k, |s|
  {
    if s == [] {
      assert Zeros(k) + s == Zeros(k);
      if k > 0 {
        assert Zeros(k)[..k - 1] == Zeros(k - 1);
        LeadingZerosValue(k - 1, "");
        assert Zeros(k - 1) + "" == Zeros(k - 1);
      }
    } else {
      var u := Zeros(k) + s;
      assert u[..|u| - 1] == Zeros(k) + s[..|s| - 1];
      LeadingZerosValue(k, s[..|s| - 1]);
    }
  }

  /** Zero-padding never changes the value, and the width is exact whenever the
      number fits in it. */
  lemma PaddedRoundTrip(n: nat, width: nat)
    requires n < Pow10(width)
    ensures DigitsValue(Padded(n, width)) == n
    ensures width >= 1 ==> |Padded(n, width)| == width
  {
    NatTextRoundTrip(n);
    NatTextLength(n, width);
    var t := NatText(n);
    if |t| < width {
      LeadingZerosValue(width - |t|, t);
    }
  }
}
