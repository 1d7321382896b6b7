/**
 * Python's `str.strip()` with no argument: removes the leading and trailing
 * characters that Python counts as whitespace.
 */
module Text {

  /** The characters `str.isspace()` accepts (ASCII separators, NEL, NBSP and the Unicode spaces). */
  predicate IsSpace(c: char)
  {
    c == ' ' || c == '\t' || c == '\n' || c == '\r' || c == '\U{0B}' || c == '\U{0C}'
    || ('\U{1C}' <= c <= '\U{1F}') || c == '\U{85}' || c == '\U{A0}' || c == '\U{1680}'
    || ('\U{2000}' <= c <= '\U{200A}') || c == '\U{2028}' || c == '\U{2029}'
    || c == '\U{202F}' || c == '\U{205F}' || c == '\U{3000}'
  }

  predicate AllSpace(s: string)
  {
    forall i :: 0 <= i < |s| ==> IsSpace(s[i])
  }

  /** A string `str.strip()` leaves alone: empty, or no whitespace at either end. */
  predicate Trimmed(s: string)
  {
    s == [] || (!IsSpace(s[0]) && !IsSpace(s[|s| - 1]))
  }

  /** Length of the longest all-whitespace prefix of `s`. */
  function LeadingSpace(s: string): (n: nat)
    ensures n <= |s| && AllSpace(s[..n])
    ensures n < |s| ==> !IsSpace(s[n])
  {
    if s == [] || !IsSpace(s[0]) then 0
    else
      var m := LeadingSpace(s[1..]);
      assert s[..1 + m] == [s[0]] + s[1..][..m];
      1 + m
  }

  /** Length of the longest all-whitespace suffix of `s`. */
  function TrailingSpace(s: string): (n: nat)
    ensures n <= |s| && AllSpace(s[|s| - n..])
    ensures n < |s| ==> !IsSpace(s[|s| - n - 1])
  {
    if s == [] || !IsSpace(s[|s| - 1]) then 0
    else
      var init := s[..|s| - 1];
      var m := TrailingSpace(init);
      assert s[|s| - (1 + m)..] == init[|init| - m..] + [s[|s| - 1]];
      1 + m
  }

  /**
   * `s.strip()`: the result is trimmed, it is empty exactly when `s` is all
   * whitespace, and `s` is the result with only whitespace around it.
   */
  function Strip(s: string): (r: string)
    ensures Trimmed(r)
    ensures AllSpace(s) <==> r == []
    ensures LeadingSpace(s) + |r| <= |s| && s[LeadingSpace(s)..LeadingSpace(s) + |r|] == r
    ensures AllSpace(s[..LeadingSpace(s)]) && AllSpace(s[LeadingSpace(s) + |r|..])
  {
    var lead := LeadingSpace(s);
    if lead == |s| then
      assert s[..lead] == s;
      assert s[0..0] == [] && s[0..] == s;
      []
    else
      var trail := TrailingSpace(s);
      assert lead + trail < |s|;
      var r := s[lead..|s| - trail];
      assert r[0] == s[lead] && r[|r| - 1] == s[|s| - trail - 1];
      assert !AllSpace(s) by { assert !IsSpace(s[lead]); }
      r
  }

  /** A string with no whitespace at either end is its own strip. */
  lemma StripTrimmed(s: string)
    requires Trimmed(s)
    ensures Strip(s) == s
  {
  }

  /** Stripping twice is stripping once. */
  lemma StripIdempotent(s: string)
    ensures Strip(Strip(s)) == Strip(s)
  {
  }

  /** Two runs of whitespace make one. */
  lemma AllSpaceConcat(a: string, b: string)
    requires AllSpace(a) && AllSpace(b)
    ensures AllSpace(a + b)
  {
  }

  /**
   * `Strip` is the only way to cut `s` into whitespace, a trimmed middle and
   * whitespace: whatever trimmed `r` sits between whitespace in `s` is `Strip(s)`.
   */
  lemma StripUnique(p: string, r: string, q: string)
    requires AllSpace(p) && AllSpace(q) && Trimmed(r)
    ensures Strip(p + r + q) == r
  {
    var s := p + r + q;
    if r == [] {
      assert AllSpace(s) by {
        forall i | 0 <= i < |s| ensures IsSpace(s[i]) {
          if i < |p| { assert s[i] == p[i]; } else { assert s[i] == q[i - |p|]; }
        }
      }
    } else {
      var lead := LeadingSpace(s);
      assert s[|p|] == r[0];
      assert lead == |p|;
      var trail := TrailingSpace(s);
      assert s[|p| + |r| - 1] == r[|r| - 1];
      assert trail == |q|;
      assert s[|p|..|s| - |q|] == r;
    }
  }

  /** Cutting `s` at `i` and `j` and moving the outer pieces into the padding. */
  lemma Regroup(p: string, s: string, q: string, i: nat, j: nat)
    requires i <= j <= |s|
    ensures p + s + q == (p + s[..i]) + s[i..j] + (s[j..] + q)
  {
  }

  /** Whitespace added around a string does not change its strip. */
  lemma StripPadding(p: string, s: string, q: string)
    requires AllSpace(p) && AllSpace(q)
    ensures Strip(p + s + q) == Strip(s)
  {
    var r, i := Strip(s), LeadingSpace(s);
    Regroup(p, s, q, i, i + |r|);
    AllSpaceConcat(p, s[..i]);
    AllSpaceConcat(s[i + |r|..], q);
    StripUnique(p + s[..i], r, s[i + |r|..] + q);
  }
}
