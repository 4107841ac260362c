/** Decimal rendering and parsing of natural numbers, as Python's `str(n)`,
    `s.isdigit()` (restricted to the ASCII digits) and `int(s)` do them. */
module Strings {

  predicate IsDigit(c: char) { '0' <= c <= '9' }

  /** `s.isdigit()`: non-empty and every character a decimal digit. */
  predicate IsDigits(s: string) {
    |s| > 0 && forall i :: 0 <= i < |s| ==> IsDigit(s[i])
  }

  function DigitChar(d: nat): (c: char)
    requires d < 10
    ensures IsDigit(c) && c as int - '0' as int == d
  {
    ['0', '1', '2', '3', '4', '5', '6', '7', '8', '9'][d]
  }

  /** `str(n)` for a non-negative integer. */
  function NatToStr(n: nat): (s: string)
    decreases n
  {
    if n < 10 then [DigitChar(n)] else NatToStr(n / 10) + [DigitChar(n % 10)]
  }

  /** `int(s)` for a string of decimal digits (leading zeros allowed). */
  function DigitsToNat(s: string): nat
    requires forall i :: 0 <= i < |s| ==> IsDigit(s[i])
    decreases |s|
  {
    if |s| == 0 then 0
    else
      assert IsDigit(s[|s| - 1]);
      DigitsToNat(s[..|s| - 1]) * 10 + (s[|s| - 1] as int - '0' as int)
  }

  /** A digit string with a non-zero leading digit denotes a positive number. */
  lemma {:induction false} LeadingNonZeroPositive(s: string)
    requires IsDigits(s) && s[0] != '0'
    ensures DigitsToNat(s) > 0
    decreases |s|
  {
    if |s| > 1 {
      LeadingNonZeroPositive(s[..|s| - 1]);
    }
  }

  /** The rendering is a digit string without a superfluous leading zero. */
  lemma {:induction false} NatToStrDigits(n: nat)
    ensures IsDigits(NatToStr(n))
    ensures |NatToStr(n)| > 1 ==> NatToStr(n)[0] != '0'
    ensures n > 0 ==> NatToStr(n)[0] != '0'
    decreases n
  {
    if n >= 10 {
      NatToStrDigits(n / 10);
      assert NatToStr(n)[0] == NatToStr(n / 10)[0];
    }
  }

  /** Parsing inverts rendering: `int(str(n)) == n`. */
  lemma {:induction false} ParseRender(n: nat)
    ensures IsDigits(NatToStr(n)) && DigitsToNat(NatToStr(n)) == n
    decreases n
  {
    NatToStrDigits(n);
    var s := NatToStr(n);
    if n >= 10 {
      ParseRender(n / 10);
      assert s[..|s| - 1] == NatToStr(n / 10);
    } else {
      assert s[..|s| - 1] == [];
    }
  }

  /** Rendering is injective. */
  lemma RenderInjective(a: nat, b: nat)
    requires NatToStr(a) == NatToStr(b)
    ensures a == b
  {
    ParseRender(a);
    ParseRender(b);
  }

  /** Strings that parse to the same number and both lack a superfluous
      leading zero are the same string: the rendering is the only canonical
      spelling. */
  lemma {:induction false} CanonicalSpelling(s: string)
    requires IsDigits(s) && (|s| > 1 ==> s[0] != '0')
    ensures NatToStr(DigitsToNat(s)) == s
    decreases |s|
  {
    var init := s[..|s| - 1];
    var d := s[|s| - 1] as int - '0' as int;
    if |s| == 1 {
      assert DigitsToNat(s) == DigitsToNat(init) * 10 + d;
      assert init == [];
      assert NatToStr(d) == [DigitChar(d)];
      assert [DigitChar(d)] == s;
    } else {
      assert IsDigits(init) && init[0] == s[0];
      CanonicalSpelling(init);
      var k := DigitsToNat(init);
      LeadingNonZeroPositive(init);
      var n := k * 10 + d;
      assert DigitsToNat(s) == n;
      assert n / 10 == k && n % 10 == d;
      assert NatToStr(n) == NatToStr(k) + [DigitChar(d)];
      assert s == init + [s[|s| - 1]];
    }
  }

  predicate NoUnderscore(s: string) {
    forall i :: 0 <= i < |s| ==> s[i] != '_'
  }

  lemma DigitsNoUnderscore(n: nat)
    ensures NoUnderscore(NatToStr(n))
  {
    NatToStrDigits(n);
  }

  /** Index of the last underscore of `s`, or -1. */
  function LastUnderscore(s: string): (r: int)
    ensures -1 <= r < |s|
    ensures r >= 0 ==> s[r] == '_'
    decreases |s|
  {
    if |s| == 0 then -1
    else if s[|s| - 1] == '_' then |s| - 1
    else LastUnderscore(s[..|s| - 1])
  }

  /** A string without underscores has no last underscore. */
  lemma {:induction false} NoLastUnderscore(s: string)
    requires NoUnderscore(s)
    ensures LastUnderscore(s) == -1
    decreases |s|
  {
    if |s| > 0 {
      NoLastUnderscore(s[..|s| - 1]);
    }
  }

  lemma {:induction false} LastUnderscoreOf(a: string, d: string)
    requires NoUnderscore(d)
    ensures LastUnderscore(a + "_" + d) == |a|
    decreases |d|
  {
    var s := a + "_" + d;
    if |d| > 0 {
      var d' := d[..|d| - 1];
      assert s[..|s| - 1] == a + "_" + d';
      LastUnderscoreOf(a, d');
    }
  }

  /** In `a + "_" + d` with `d` free of underscores, `d` is recoverable as
      the text after the last underscore. */
  lemma SuffixAfterUnderscore(a: string, d: string, b: string, e: string)
    requires NoUnderscore(d) && NoUnderscore(e)
    requires a + "_" + d == b + "_" + e
    ensures d == e
  {
    var s := a + "_" + d;
    LastUnderscoreOf(a, d);
    LastUnderscoreOf(b, e);
    assert d == s[|a| + 1..];
    assert e == (b + "_" + e)[|b| + 1..];
  }

  /** Names of the shape `prefix_<n>` are distinct for distinct numbers,
      whatever the prefixes. */
  lemma NumberedNamesDistinct(a: string, m: nat, b: string, n: nat)
    requires a + "_" + NatToStr(m) == b + "_" + NatToStr(n)
    ensures m == n
  {
    DigitsNoUnderscore(m);
    DigitsNoUnderscore(n);
    SuffixAfterUnderscore(a, NatToStr(m), b, NatToStr(n));
    RenderInjective(m, n);
  }

  /** The number written after the last underscore of `s`, or -1 when the
      text after it is not a digit string (or there is no underscore). */
  function NumberSuffix(s: string): int {
    var k := LastUnderscore(s);
    if k >= 0 && IsDigits(s[k + 1..]) then DigitsToNat(s[k + 1..]) else -1
  }

  /** `NumberSuffix` reads back the number of a name `prefix_<n>`. */
  lemma NumberSuffixOf(a: string, n: nat)
    ensures NumberSuffix(a + "_" + NatToStr(n)) == n
  {
    var s := a + "_" + NatToStr(n);
    DigitsNoUnderscore(n);
    LastUnderscoreOf(a, NatToStr(n));
    assert s[|a| + 1..] == NatToStr(n);
    ParseRender(n);
  }

  /** `t in s` on strings: `t` occurs in `s` as a contiguous piece. */
  predicate Contains(s: string, t: string)
    decreases |s|
  {
    t <= s || (|s| > 0 && Contains(s[1..], t))
  }

  /** A string contains its own prefixes and nothing longer than itself. */
  lemma {:induction false} ContainsBounds(s: string, t: string)
    ensures t <= s ==> Contains(s, t)
    ensures |t| > |s| ==> !Contains(s, t)
    decreases |s|
  {
    if |s| > 0 {
      ContainsBounds(s[1..], t);
    }
  }
}
