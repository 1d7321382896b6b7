/**
 * The part of Python's `float(str)` that turns decimal text into a number:
 * surrounding whitespace, an optional sign, digits with an optional decimal
 * point, and an optional exponent. Numbers are exact reals, not IEEE doubles.
 */
module Numeric {
  import opened Wrappers
  import opened Text

  predicate IsDigit(c: char)
  {
    '0' <= c <= '9'
  }

  predicate AllDigits(s: string)
  {
    forall i :: 0 <= i < |s| ==> IsDigit(s[i])
  }

  function DigitValue(c: char): (d: nat)
    requires IsDigit(c)
    ensures d < 10
  {
    (c as int) - ('0' as int)
  }

  /** The value of a run of decimal digits, most significant first. */
  function DigitsValue(s: string): nat
    requires AllDigits(s)
  {
    if s == [] then 0 else DigitsValue(s[..|s| - 1]) * 10 + DigitValue(s[|s| - 1])
  }

  function Pow10(e: nat): (p: nat)
    ensures p >= 1
  {
    if e == 0 then 1 else 10 * Pow10(e - 1)
  }

  /** `10 ** e` for a signed exponent. */
  function Scale(e: int): (x: real)
    ensures x > 0.0
  {
    if e >= 0 then Pow10(e) as real else 1.0 / Pow10(-e) as real
  }

  /** The end of the run of digits that starts at `i`. */
  function SpanDigits(s: string, i: nat): (j: nat)
    requires i <= |s|
    ensures i <= j <= |s| && AllDigits(s[i..j])
    ensures j < |s| ==> !IsDigit(s[j])
    decreases |s| - i
  {
    if i == |s| || !IsDigit(s[i]) then i
    else
      var j := SpanDigits(s, i + 1);
      assert s[i..j] == [s[i]] + s[i + 1..j];
      j
  }

  /** The exponent part starting at `i`: nothing, or `e`/`E`, a sign and digits reaching the end. */
  function ParseExponent(t: string, i: nat): Option<int>
    requires i <= |t|
  {
    if i == |t| then Some(0)
    else if t[i] != 'e' && t[i] != 'E' then None
    else
      var k := if i + 1 < |t| && (t[i + 1] == '+' || t[i + 1] == '-') then i + 2 else i + 1;
      var j := SpanDigits(t, k);
      if j == k || j != |t| then None
      else
        var e: int := DigitsValue(t[k..j]);
        Some(if t[i + 1] == '-' then -e else e)
  }

  /** Digits with an optional decimal point from `i`: the magnitude and where it ends. */
  function ParseMagnitude(t: string, i: nat): (r: Option<(real, nat)>)
    requires i <= |t|
    ensures r.Some? ==> i < r.value.1 <= |t| && exists d :: i <= d < r.value.1 && IsDigit(t[d])
  {
    var i1 := SpanDigits(t, i);
    var whole := DigitsValue(t[i..i1]) as real;
    if i1 < |t| && t[i1] == '.' then
      var i2 := SpanDigits(t, i1 + 1);
      if i1 == i && i2 == i1 + 1 then None
      else
        assert IsDigit(t[if i1 > i then i else i1 + 1]) by {
          if i1 > i { assert t[i..i1][0] == t[i]; } else { assert t[i1 + 1..i2][0] == t[i1 + 1]; }
        }
        Some((whole + DigitsValue(t[i1 + 1..i2]) as real / Pow10(i2 - i1 - 1) as real, i2))
    else if i1 == i then None
    else
      assert t[i..i1][0] == t[i];
      Some((whole, i1))
  }

  /** Python's `float()` on text already stripped of surrounding whitespace. */
  function ParseNumber(t: string): (r: Option<real>)
    ensures r.Some? ==> exists d :: 0 <= d < |t| && IsDigit(t[d])
  {
    var i0 := if |t| > 0 && (t[0] == '+' || t[0] == '-') then 1 else 0;
    match ParseMagnitude(t, i0)
    case None => None
    case Some((magnitude, i)) =>
      match ParseExponent(t, i)
      case None => None
      case Some(e) =>
        var x := magnitude * Scale(e);
        Some(if i0 == 1 && t[0] == '-' then -x else x)
  }

  /**
   * The ASCII information separators U+001C to U+001F. `str.strip()` counts
   * them as whitespace, but `float()` trims only the C whitespace characters
   * (after mapping non-ASCII whitespace to a space), so a separator anywhere
   * in the text makes it unparsable.
   */
  predicate IsSeparator(c: char)
  {
    '\U{1C}' <= c <= '\U{1F}'
  }

  /** The whitespace `float()` ignores around a number. */
  predicate AllFloatSpace(s: string)
  {
    forall i :: 0 <= i < |s| ==> IsSpace(s[i]) && !IsSeparator(s[i])
  }

  /** `float(s)` for a string: `None` where Python raises `ValueError`. */
  function ParseDecimal(s: string): (r: Option<real>)
    ensures r.Some? ==> exists d :: 0 <= d < |s| && IsDigit(s[d])
    ensures r.Some? ==> forall i :: 0 <= i < |s| ==> !IsSeparator(s[i])
  {
    if exists i :: 0 <= i < |s| && IsSeparator(s[i]) then None
    else
      var t := Strip(s);
      var r := ParseNumber(t);
      assert r.Some? ==> exists d :: 0 <= d < |s| && IsDigit(s[d]) by {
        if r.Some? {
          var d :| 0 <= d < |t| && IsDigit(t[d]);
          assert s[LeadingSpace(s)..LeadingSpace(s) + |t|][d] == t[d];
        }
      }
      r
  }

  function DigitChar(d: nat): (c: char)
    requires d < 10
    ensures IsDigit(c) && DigitValue(c) == d
  {
    ('0' as int + d) as char
  }

  /** Decimal digits of `n` without leading zeros (Python's `str(n)`). */
  function NatString(n: nat): (s: string)
    ensures s != [] && AllDigits(s)
  {
    if n < 10 then [DigitChar(n)] else NatString(n / 10) + [DigitChar(n % 10)]
  }

  lemma {:induction false} NatStringValue(n: nat)
    ensures DigitsValue(NatString(n)) == n
  {
    if n >= 10 {
      var s := NatString(n);
      assert s[..|s| - 1] == NatString(n / 10);
      NatStringValue(n / 10);
    }
  }

  /** A run of digits alone reads as its value. */
  lemma {:induction false} ParseDigits(t: string)
    requires t != [] && AllDigits(t)
    ensures ParseNumber(t) == Some(DigitsValue(t) as real)
  {
    assert t[0] != '+' && t[0] != '-';
    SpanDigitsEnd(t, 0, |t|);
    assert t[0..|t|] == t;
    assert ParseMagnitude(t, 0) == Some((DigitsValue(t) as real, |t|));
    ParseUnsigned(t, DigitsValue(t) as real);
  }

  /** Digits, a decimal point and digits read as the whole part plus the scaled fraction. */
  lemma {:induction false} ParseFraction(a: string, b: string)
    requires AllDigits(a) && AllDigits(b) && (a != [] || b != [])
    ensures ParseNumber(a + "." + b) == Some(DigitsValue(a) as real + DigitsValue(b) as real / Pow10(|b|) as real)
  {
    var t := a + "." + b;
    FractionSpans(a, b);
    assert t[|a| + 1..|t|] == t[|a| + 1..];
    var whole, frac := DigitsValue(t[0..|a|]), DigitsValue(t[|a| + 1..|t|]);
    assert whole == DigitsValue(a) && frac == DigitsValue(b);
    FractionMagnitude(t, |a| + 1, whole, frac);
    assert t[0] != '+' && t[0] != '-' by {
      if a != [] { assert t[0] == a[0]; }
    }
    var x := whole as real + frac as real / Pow10(|b|) as real;
    ParseUnsigned(t, x);
    assert x == DigitsValue(a) as real + DigitsValue(b) as real / Pow10(|b|) as real;
  }

  /** The magnitude of `w.f` when the whole text is that pattern. */
  lemma {:induction false} FractionMagnitude(t: string, n: nat, whole: nat, frac: nat)
    requires 0 < n <= |t| && SpanDigits(t, 0) == n - 1 && t[n - 1] == '.' && SpanDigits(t, n) == |t|
    requires whole == DigitsValue(t[0..n - 1]) && frac == DigitsValue(t[n..|t|]) && (n > 1 || |t| > n)
    ensures ParseMagnitude(t, 0) == Some((whole as real + frac as real / Pow10(|t| - n) as real, |t|))
  {
  }

  /** Unsigned text whose magnitude reaches the end reads as that magnitude. */
  lemma {:induction false} ParseUnsigned(t: string, x: real)
    requires t != [] && t[0] != '+' && t[0] != '-' && ParseMagnitude(t, 0) == Some((x, |t|))
    ensures ParseNumber(t) == Some(x)
  {
    assert ParseExponent(t, |t|) == Some(0);
    assert Scale(0) == 1.0;
  }

  /** A maximal run of digits is the one `SpanDigits` finds. */
  lemma {:induction false} SpanDigitsEnd(t: string, i: nat, j: nat)
    requires i <= j <= |t| && AllDigits(t[i..j]) && (j < |t| ==> !IsDigit(t[j]))
    ensures SpanDigits(t, i) == j
  {
    var k := SpanDigits(t, i);
    forall m | i <= m < j ensures IsDigit(t[m]) {
      assert t[i..j][m - i] == t[m];
    }
    forall m | i <= m < k ensures IsDigit(t[m]) {
      assert t[i..k][m - i] == t[m];
    }
  }

  /** Where the digit runs of `a.b` start and end. */
  lemma {:induction false} FractionSpans(a: string, b: string)
    requires AllDigits(a) && AllDigits(b)
    ensures (a + "." + b)[0..|a|] == a && (a + "." + b)[|a| + 1..] == b
    ensures SpanDigits(a + "." + b, 0) == |a|
    ensures SpanDigits(a + "." + b, |a| + 1) == |a + "." + b|
  {
    var t := a + "." + b;
    assert t[0..|a|] == a && t[|a|] == '.';
    assert t[|a| + 1..|t|] == b;
    SpanDigitsEnd(t, 0, |a|);
    SpanDigitsEnd(t, |a| + 1, |t|);
  }

  /** Reading back the decimal text of a whole number gives that number. */
  lemma ParseNatString(n: nat)
    ensures ParseDecimal(NatString(n)) == Some(n as real)
  {
    var s := NatString(n);
    assert !IsSpace(s[0]) && !IsSpace(s[|s| - 1]);
    StripTrimmed(s);
    ParseDigits(s);
    NatStringValue(n);
  }

  /** `float()` ignores whitespace around the number. */
  lemma {:induction false} ParsePadding(p: string, s: string, q: string)
    requires AllFloatSpace(p) && AllFloatSpace(q)
    ensures ParseDecimal(p + s + q) == ParseDecimal(s)
  {
    var t := p + s + q;
    assert forall i :: 0 <= i < |s| ==> s[i] == t[|p| + i];
    assert forall i :: 0 <= i < |t| ==> (i < |p| && t[i] == p[i]) || (|p| <= i < |p| + |s| && t[i] == s[i - |p|]) || (|p| + |s| <= i && t[i] == q[i - |p| - |s|]);
    StripPadding(p, s, q);
  }
}
