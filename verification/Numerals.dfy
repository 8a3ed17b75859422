/** Positional numerals, as Go's and JavaScript's formatting verbs print them. */
module Numerals {

  /** The digit characters, lower case as `%x` and `toString(16)` print them. */
  const DIGITS: string := "0123456789abcdef"

  /** Products, quotients and remainders by one of the two bases, spelt without a product of
      two variables. */
  function Times(x: nat, base: nat): nat
    requires base == 10 || base == 16
  {
    if base == 10 then x * 10 else x * 16
  }

  function Quotient(x: nat, base: nat): (q: nat)
    requires base == 10 || base == 16
    ensures x >= base ==> q < x
  {
    if base == 10 then x / 10 else x / 16
  }

  function Remainder(x: nat, base: nat): (r: nat)
    requires base == 10 || base == 16
    ensures r < base && Times(Quotient(x, base), base) + r == x
  {
    if base == 10 then x % 10 else x % 16
  }

  function Power(base: nat, n: nat): (r: nat)
    requires base == 10 || base == 16
    ensures r >= 1
  {
    if n == 0 then 1 else Times(Power(base, n - 1), base)
  }

  predicate IsDigit(c: char, base: nat)
    requires base == 10 || base == 16
  {
    c in DIGITS[..base]
  }

  predicate AllDigits(s: string, base: nat)
    requires base == 10 || base == 16
  {
    forall c | c in s :: IsDigit(c, base)
  }

  function DigitValue(c: char): (d: nat)
    ensures d < 16
    ensures c in DIGITS ==> DIGITS[d] == c
  {
    if '0' <= c <= '9' then (c - '0') as nat
    else if 'a' <= c <= 'f' then (c - 'a') as nat + 10
    else 0
  }

  lemma DigitRoundTrip(d: nat)
    requires d < 16
    ensures DigitValue(DIGITS[d]) == d
  {
  }

  lemma DigitBelowBase(c: char, base: nat)
    requires base == 10 || base == 16
    requires IsDigit(c, base)
    ensures DigitValue(c) < base && c in DIGITS
  {
  }

  /** The numeral of n without leading zeros. */
  function Digits(n: nat, base: nat): (s: string)
    requires base == 10 || base == 16
    ensures |s| >= 1 && AllDigits(s, base)
    decreases n
  {
    if n < base then [DIGITS[n]] else Digits(Quotient(n, base), base) + [DIGITS[Remainder(n, base)]]
  }

  /** The number that a numeral denotes. */
  function Value(s: string, base: nat): nat
    requires base == 10 || base == 16
  {
    if s == [] then 0 else Times(Value(s[..|s| - 1], base), base) + DigitValue(s[|s| - 1])
  }

  lemma {:induction false} ValueOfDigits(n: nat, base: nat)
    requires base == 10 || base == 16
    ensures Value(Digits(n, base), base) == n
    decreases n
  {
    if n < base {
      DigitRoundTrip(n);
      ValueOfSnoc([], DIGITS[n], base);
    } else {
      var q, r := Quotient(n, base), Remainder(n, base);
      ValueOfDigits(q, base);
      DigitRoundTrip(r);
      ValueOfSnoc(Digits(q, base), DIGITS[r], base);
    }
  }

  lemma ValueOfSnoc(s: string, c: char, base: nat)
    requires base == 10 || base == 16
    ensures Value(s + [c], base) == Times(Value(s, base), base) + DigitValue(c)
  {
    assert (s + [c])[..|s + [c]| - 1] == s;
  }

  lemma {:induction false} ValueBelowPower(s: string, base: nat)
    requires base == 10 || base == 16
    requires AllDigits(s, base)
    ensures Value(s, base) < Power(base, |s|)
  {
    if s != [] {
      ValueBelowPower(s[..|s| - 1], base);
      DigitBelowBase(s[|s| - 1], base);
    }
  }

  lemma {:induction false} DigitsFit(n: nat, base: nat, width: nat)
    requires base == 10 || base == 16
    requires width >= 1 && n < Power(base, width)
    ensures |Digits(n, base)| <= width
    decreases n
  {
    if n >= base {
      assert Power(base, 1) == Times(Power(base, 0), base);
      DigitsFit(Quotient(n, base), base, width - 1);
    }
  }

  function Zeros(n: nat): (s: string)
    ensures |s| == n && forall c | c in s :: c == '0'
  {
    seq(n, _ => '0')
  }

  /** `%0<width>d` and `padStart(width, "0")`: left padding with zeros, never truncating. */
  function PadLeft(s: string, width: nat): (r: string)
    ensures |r| == if |s| < width then width else |s|
  {
    if |s| < width then Zeros(width - |s|) + s else s
  }

  lemma {:induction false} ValueOfZerosThen(k: nat, s: string, base: nat)
    requires base == 10 || base == 16
    ensures Value(Zeros(k) + s, base) == Value(s, base)
    decreases k + |s|
  {
    var t := Zeros(k) + s;
    if s != [] {
      assert t[..|t| - 1] == Zeros(k) + s[..|s| - 1];
      ValueOfZerosThen(k, s[..|s| - 1], base);
    } else if k > 0 {
      assert t[..|t| - 1] == Zeros(k - 1) + [];
      ValueOfZerosThen(k - 1, [], base);
    } else {
      assert t == [];
    }
  }

  lemma {:induction false} ValueOfPadded(s: string, width: nat, base: nat)
    requires base == 10 || base == 16
    ensures Value(PadLeft(s, width), base) == Value(s, base)
  {
    if |s| < width {
      ValueOfZerosThen(width - |s|, s, base);
    }
  }

  lemma LastDigitUnique(x: nat, d: nat, y: nat, e: nat, base: nat)
    requires base == 10 || base == 16
    requires d < base && e < base
    requires Times(x, base) + d == Times(y, base) + e
    ensures x == y && d == e
  {
  }

  /** Numerals of one width denote different numbers when they differ. */
  lemma {:induction false} EqualWidthInjective(a: string, b: string, base: nat)
    requires base == 10 || base == 16
    requires AllDigits(a, base) && AllDigits(b, base)
    requires |a| == |b| && Value(a, base) == Value(b, base)
    ensures a == b
  {
    if a != [] {
      var n := |a| - 1;
      DigitBelowBase(a[n], base);
      DigitBelowBase(b[n], base);
      LastDigitUnique(Value(a[..n], base), DigitValue(a[n]), Value(b[..n], base), DigitValue(b[n]), base);
      EqualWidthInjective(a[..n], b[..n], base);
      assert a == a[..n] + [a[n]] && b == b[..n] + [b[n]];
    }
  }

  /** A padded numeral is the numeral's unique spelling at that width. */
  lemma {:induction false} PaddedSpelling(s: string, base: nat)
    requires base == 10 || base == 16
    requires |s| >= 1 && AllDigits(s, base)
    ensures PadLeft(Digits(Value(s, base), base), |s|) == s
  {
    var n := Value(s, base);
    var p := PadLeft(Digits(n, base), |s|);
    ValueBelowPower(s, base);
    DigitsFit(n, base, |s|);
    ValueOfDigits(n, base);
    ValueOfPadded(Digits(n, base), |s|, base);
    PaddedDigits(Digits(n, base), |s|, base);
    EqualWidthInjective(p, s, base);
  }

  lemma PaddedDigits(s: string, width: nat, base: nat)
    requires base == 10 || base == 16
    requires AllDigits(s, base)
    ensures AllDigits(PadLeft(s, width), base)
  {
    assert IsDigit('0', base) by { assert DIGITS[..base][0] == '0'; }
  }
}
