/**
 * Decimal digit strings as the player's filename expander uses them:
 * `parseInt` of a run of digits, the decimal text of a number (`i + ""`),
 * and `padStart(width, "0")`.
 */
module Digits {

  /** A character matched by `\d` in a JavaScript regular expression. */
  predicate IsDigit(c: char) {
    '0' <= c <= '9'
  }

  predicate AllDigits(s: string) {
    forall i :: 0 <= i < |s| ==> IsDigit(s[i])
  }

  /** A decimal numeral as JavaScript prints a non-negative integer: no leading zero except "0" itself. */
  predicate Canonical(s: string) {
    |s| >= 1 && AllDigits(s) && (s[0] == '0' ==> |s| == 1)
  }

  function Pow10(n: nat): (p: nat)
    ensures p >= 1
  {
    if n == 0 then 1 else 10 * Pow10(n - 1)
  }

  function DigitValue(c: char): (d: nat)
    requires IsDigit(c)
    ensures d < 10
  {
    c as int - '0' as int
  }

  function DigitChar(d: nat): (c: char)
    requires d < 10
    ensures IsDigit(c) && DigitValue(c) == d
  {
    ('0' as int + d) as char
  }

  function Zeros(k: nat): (z: string)
    ensures |z| == k && forall i :: 0 <= i < k ==> z[i] == '0'
  {
    seq(k, _ => '0')
  }

  /** `parseInt(s)` for a string of decimal digits (leading zeros are ignored). */
  function ParseDecimal(s: string): (n: nat)
    requires AllDigits(s)
    ensures n < Pow10(|s|)
  {
    if s == [] then 0 else ParseDecimal(s[..|s| - 1]) * 10 + DigitValue(s[|s| - 1])
  }

  /** `n + ""`: the decimal text of a non-negative integer. */
  function ToDecimal(n: nat): (s: string)
    ensures Canonical(s)
  {
    if n < 10 then [DigitChar(n)] else ToDecimal(n / 10) + [DigitChar(n % 10)]
  }

  /** `s.padStart(width, "0")`: zeros on the left up to `width` characters; never truncates. */
  function PadStart(s: string, width: nat): (r: string)
    ensures |r| == if |s| < width then width else |s|
    ensures r[|r| - |s|..] == s
    ensures forall i :: 0 <= i < |r| - |s| ==> r[i] == '0'
  {
    if |s| < width then Zeros(width - |s|) + s else s
  }

  /** The numeral `s` with its superfluous leading zeros removed. */
  function StripZeros(s: string): (r: string)
    requires |s| >= 1 && AllDigits(s)
    ensures Canonical(r) && |r| <= |s|
    ensures s == Zeros(|s| - |r|) + r
  {
    if |s| > 1 && s[0] == '0' then
      var r := StripZeros(s[1..]);
      assert s == ['0'] + s[1..];
      assert Zeros(|s| - |r|) == ['0'] + Zeros(|s| - 1 - |r|);
      r
    else
      assert Zeros(0) == [];
      s
  }

  /** Powers of ten are ordered as their exponents. */
  lemma {:induction false} Pow10Order(m: nat, n: nat)
    ensures Pow10(n) < Pow10(m) ==> n < m
  {
    if n > 0 && m > 0 {
      Pow10Order(m - 1, n - 1);
    }
  }

  /** Reading the decimal text of `n` gives back `n`. */
  lemma {:induction false} ParseToDecimal(n: nat)
    ensures ParseDecimal(ToDecimal(n)) == n
  {
    if n >= 10 {
      ParseToDecimal(n / 10);
      var s := ToDecimal(n);
      assert s[..|s| - 1] == ToDecimal(n / 10);
    }
  }

  /** The value of a concatenation of digit strings. */
  lemma {:induction false} ParseConcat(x: string, y: string)
    requires AllDigits(x) && AllDigits(y)
    ensures AllDigits(x + y)
    ensures ParseDecimal(x + y) == ParseDecimal(x) * Pow10(|y|) + ParseDecimal(y)
  {
    if y != [] {
      var y' := y[..|y| - 1];
      assert (x + y)[..|x + y| - 1] == x + y';
      ParseConcat(x, y');
      ShiftDigit(ParseDecimal(x + y), ParseDecimal(x), Pow10(|y'|), ParseDecimal(y'), DigitValue(y[|y| - 1]),
        Pow10(|y|), ParseDecimal(y));
    } else {
      assert x + y == x;
    }
  }

  lemma ShiftDigit(whole: int, p: int, q: int, r: int, d: int, q10: int, tail: int)
    requires whole == (p * q + r) * 10 + d && q10 == 10 * q && tail == r * 10 + d
    ensures whole == p * q10 + tail
  {
  }

  lemma {:induction false} ZerosAreZero(k: nat)
    ensures AllDigits(Zeros(k)) && ParseDecimal(Zeros(k)) == 0
  {
    if k > 0 {
      assert Zeros(k)[..k - 1] == Zeros(k - 1);
      ZerosAreZero(k - 1);
    }
  }

  /** A numeral that does not start with '0' is at least 10^(length - 1). */
  lemma {:induction false} LeadingDigitBound(s: string)
    requires |s| >= 1 && AllDigits(s) && s[0] != '0'
    ensures ParseDecimal(s) >= Pow10(|s| - 1)
  {
    if |s| > 1 {
      LeadingDigitBound(s[..|s| - 1]);
    }
  }

  /** Printing the value of a canonical numeral gives back the numeral. */
  lemma {:induction false} ToDecimalOfCanonical(s: string)
    requires Canonical(s)
    ensures ToDecimal(ParseDecimal(s)) == s
  {
    if |s| > 1 {
      var s' := s[..|s| - 1];
      ToDecimalOfCanonical(s');
      LeadingDigitBound(s');
      var n := ParseDecimal(s);
      var d := DigitValue(s[|s| - 1]);
      assert n == ParseDecimal(s') * 10 + d;
      assert n / 10 == ParseDecimal(s') && n % 10 == d;
      assert DigitChar(d) == s[|s| - 1];
      assert s == s' + [s[|s| - 1]];
    } else {
      assert DigitChar(DigitValue(s[0])) == s[0];
    }
  }

  /**
   * The round trip behind the first generated filename: re-printing the
   * parsed number and padding it to the original width gives the original digits.
   */
  lemma PadParseRoundTrip(a: string)
    requires |a| >= 1 && AllDigits(a)
    ensures PadStart(ToDecimal(ParseDecimal(a)), |a|) == a
  {
    var r := StripZeros(a);
    var z := Zeros(|a| - |r|);
    ZerosAreZero(|a| - |r|);
    ParseConcat(z, r);
    ToDecimalOfCanonical(r);
    assert ParseDecimal(a) == ParseDecimal(r);
    if |r| == |a| {
      assert z == [];
      assert r == a;
    }
  }

  /**
   * A padded frame number: all digits, denotes `n`, at least `width` wide,
   * and padded only as far as `width` (the decimal text is never truncated).
   */
  lemma PaddedNumber(n: nat, width: nat)
    ensures var d := PadStart(ToDecimal(n), width);
      AllDigits(d) && ParseDecimal(d) == n && |d| >= width && |d| >= |ToDecimal(n)|
      && (|d| > width ==> d == ToDecimal(n))
  {
    var t := ToDecimal(n);
    ParseToDecimal(n);
    if |t| < width {
      ZeroPadValue(t, width - |t|);
    }
  }

  /** Zeros in front do not change a numeral's value. */
  lemma ZeroPadValue(t: string, k: nat)
    requires AllDigits(t)
    ensures AllDigits(Zeros(k) + t) && ParseDecimal(Zeros(k) + t) == ParseDecimal(t)
  {
    ZerosAreZero(k);
    ParseConcat(Zeros(k), t);
  }

  /** Of two canonical numerals the smaller value never has more digits. */
  lemma CanonicalLengthMonotone(a: string, b: string)
    requires Canonical(a) && Canonical(b) && ParseDecimal(a) <= ParseDecimal(b)
    ensures |a| <= |b|
  {
    if a[0] != '0' {
      LeadingDigitBound(a);
      Pow10Order(|b|, |a| - 1);
    }
  }
}
