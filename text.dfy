/**
 * The string primitives the Python code relies on, restricted to ASCII:
 * `str.strip()`, `str.lower()`, the substring test `pat in s`, slicing
 * `s[:n]`, `sep.join(parts)` and the decimal rendering of an `int` in an f-string.
 */
module Text {

  /** `str.isspace()` on the ASCII range: space, \t, \n, \v, \f, \r and the separators 0x1C-0x1F. */
  predicate IsSpace(c: char) {
    c == ' ' || c == '\t' || c == '\n' || c == '\r' || c == '\U{0B}' || c == '\U{0C}'
    || ('\U{1C}' <= c <= '\U{1F}')
  }

  function LowerChar(c: char): char {
    if 'A' <= c <= 'Z' then (c as int - 'A' as int + 'a' as int) as char else c
  }

  /** `s.lower()` for ASCII letters; every other character is left as it is. */
  function Lower(s: string): string {
    seq(|s|, k requires 0 <= k < |s| => LowerChar(s[k]))
  }

  lemma LowerAppend(a: string, b: string)
    ensures Lower(a + b) == Lower(a) + Lower(b)
  {
    assert forall k :: 0 <= k < |a + b| ==> Lower(a + b)[k] == (Lower(a) + Lower(b))[k];
  }

  /** A character that lower-cases to a letter is not whitespace. */
  lemma LowerLetterNotSpace(c: char)
    requires 'a' <= LowerChar(c) <= 'z'
    ensures !IsSpace(c)
  {
  }

  // ---------------------------------------------------------------------------
  // Substring test
  // ---------------------------------------------------------------------------

  /** `pat` occurs in `s` starting at index `i`. */
  predicate OccursAt(s: string, pat: string, i: int) {
    0 <= i && i + |pat| <= |s| && s[i..i + |pat|] == pat
  }

  /** Python's `pat in s`. */
  predicate Contains(s: string, pat: string) {
    exists i :: 0 <= i <= |s| - |pat| && OccursAt(s, pat, i)
  }

  /** A match in either part is a match in the concatenation. */
  lemma ContainsInConcat(a: string, b: string, pat: string)
    requires Contains(a, pat) || Contains(b, pat)
    ensures Contains(a + b, pat)
  {
    if Contains(a, pat) {
      var i :| 0 <= i <= |a| - |pat| && OccursAt(a, pat, i);
      assert (a + b)[i..i + |pat|] == a[i..i + |pat|];
      assert OccursAt(a + b, pat, i);
    } else {
      var i :| 0 <= i <= |b| - |pat| && OccursAt(b, pat, i);
      assert (a + b)[|a| + i..|a| + i + |pat|] == b[i..i + |pat|];
      assert OccursAt(a + b, pat, |a| + i);
    }
  }

  /** A word that lower-cases to `pat` is found by `pat in (a + m + b).lower()`. */
  lemma ContainsLowered(a: string, m: string, b: string, pat: string)
    requires Lower(m) == pat
    ensures Contains(Lower(a + m + b), pat)
  {
    LowerAppend(a + m, b);
    LowerAppend(a, m);
    var s := Lower(a) + pat + Lower(b);
    assert s[|a|..|a| + |pat|] == pat;
    assert OccursAt(s, pat, |a|);
  }

  // ---------------------------------------------------------------------------
  // strip()
  // ---------------------------------------------------------------------------

  /** Every character of `s[i..j]` is whitespace. */
  predicate SpaceBetween(s: string, i: int, j: int)
    requires 0 <= i <= j <= |s|
  {
    forall k :: i <= k < j ==> IsSpace(s[k])
  }

  /** Index of the first non-whitespace character at or after `i` (or `|s|`). */
  function SkipSpace(s: string, i: nat): (n: nat)
    requires i <= |s|
    ensures i <= n <= |s|
    decreases |s| - i
  {
    if i < |s| && IsSpace(s[i]) then SkipSpace(s, i + 1) else i
  }

  /** `SkipSpace` passes over whitespace only and stops at a non-whitespace character or the end. */
  lemma {:induction false} SkipSpaceSpec(s: string, i: nat)
    requires i <= |s|
    ensures SpaceBetween(s, i, SkipSpace(s, i))
    ensures SkipSpace(s, i) < |s| ==> !IsSpace(s[SkipSpace(s, i)])
    decreases |s| - i
  {
    if i < |s| && IsSpace(s[i]) {
      SkipSpaceSpec(s, i + 1);
    }
  }

  /** `SkipSpace` stops at the first non-whitespace character. */
  lemma {:induction false} SkipSpaceTo(s: string, i: nat, a: nat)
    requires i <= a < |s| && SpaceBetween(s, i, a) && !IsSpace(s[a])
    ensures SkipSpace(s, i) == a
    decreases a - i
  {
    if i < a {
      SkipSpaceTo(s, i + 1, a);
    }
  }

  /** Index just past the last non-whitespace character of `s[lo..j]` (or `lo`). */
  function SkipSpaceBack(s: string, lo: nat, j: nat): (n: nat)
    requires lo <= j <= |s|
    ensures lo <= n <= j
    decreases j
  {
    if lo < j && IsSpace(s[j - 1]) then SkipSpaceBack(s, lo, j - 1) else j
  }

  /** `SkipSpaceBack` passes over whitespace only and stops after a non-whitespace character or at `lo`. */
  lemma {:induction false} SkipSpaceBackSpec(s: string, lo: nat, j: nat)
    requires lo <= j <= |s|
    ensures SpaceBetween(s, SkipSpaceBack(s, lo, j), j)
    ensures lo < SkipSpaceBack(s, lo, j) ==> !IsSpace(s[SkipSpaceBack(s, lo, j) - 1])
    decreases j
  {
    if lo < j && IsSpace(s[j - 1]) {
      SkipSpaceBackSpec(s, lo, j - 1);
    }
  }

  /** `SkipSpaceBack` stops just after the last non-whitespace character. */
  lemma {:induction false} SkipSpaceBackTo(s: string, lo: nat, e: nat, j: nat)
    requires lo < e <= j <= |s| && SpaceBetween(s, e, j) && !IsSpace(s[e - 1])
    ensures SkipSpaceBack(s, lo, j) == e
    decreases j
  {
    if e < j {
      SkipSpaceBackTo(s, lo, e, j - 1);
    }
  }

  /** Where `strip()` starts cutting: the first non-whitespace index. */
  function StripStart(s: string): nat
    ensures StripStart(s) <= |s|
  {
    SkipSpace(s, 0)
  }

  /** Where `strip()` stops cutting: just past the last non-whitespace index. */
  function StripEnd(s: string): nat
    ensures StripStart(s) <= StripEnd(s) <= |s|
  {
    SkipSpaceBack(s, StripStart(s), |s|)
  }

  /** `s.strip()`: `s` without its leading and trailing whitespace. */
  function Strip(s: string): string {
    s[StripStart(s)..StripEnd(s)]
  }

  /**
   * `strip()` cuts only whitespace, all the whitespace at either end, and
   * leaves a result that is empty exactly when `s` is all whitespace.
   */
  lemma StripSpec(s: string)
    ensures SpaceBetween(s, 0, StripStart(s)) && SpaceBetween(s, StripEnd(s), |s|)
    ensures Strip(s) == [] <==> SpaceBetween(s, 0, |s|)
    ensures var r := Strip(s); r != [] ==> !IsSpace(r[0]) && !IsSpace(r[|r| - 1])
  {
    SkipSpaceSpec(s, 0);
    SkipSpaceBackSpec(s, StripStart(s), |s|);
  }

  /** Any slice with only whitespace around it and non-space ends is what `strip()` returns. */
  lemma StripUnique(s: string, a: int, e: int)
    requires 0 <= a < e <= |s|
    requires SpaceBetween(s, 0, a) && SpaceBetween(s, e, |s|)
    requires !IsSpace(s[a]) && !IsSpace(s[e - 1])
    ensures StripStart(s) == a && StripEnd(s) == e && Strip(s) == s[a..e]
  {
    SkipSpaceTo(s, 0, a);
    SkipSpaceBackTo(s, a, e, |s|);
  }

  // ---------------------------------------------------------------------------
  // Slicing and joining
  // ---------------------------------------------------------------------------

  function Min(a: int, b: int): int {
    if a < b then a else b
  }

  /** `s[:n]` for a non-negative `n`: the first min(n, |s|) characters. */
  function Take(s: string, n: nat): (r: string)
    ensures |r| == Min(n, |s|)
    ensures r == s[..|r|]
  {
    if n < |s| then s[..n] else s
  }

  /** `sep.join(parts)`. */
  function Join(parts: seq<string>, sep: string): string
    decreases |parts|
  {
    if |parts| == 0 then ""
    else if |parts| == 1 then parts[0]
    else parts[0] + sep + Join(parts[1..], sep)
  }

  // ---------------------------------------------------------------------------
  // Decimal rendering
  // ---------------------------------------------------------------------------

  predicate IsDigit(c: char) {
    '0' <= c <= '9'
  }

  function DigitValue(c: char): nat
    requires IsDigit(c)
  {
    c as int - '0' as int
  }

  function DigitChar(d: nat): (c: char)
    requires d < 10
    ensures IsDigit(c)
  {
    (d + '0' as int) as char
  }

  /** `str(n)` / `f"{n}"` for a non-negative integer. */
  function NatToString(n: nat): (s: string)
    ensures s != []
  {
    if n < 10 then [DigitChar(n)] else NatToString(n / 10) + [DigitChar(n % 10)]
  }

  /** `NatToString` writes decimal digits only. */
  lemma {:induction false} NatToStringDigits(n: nat)
    ensures forall k :: 0 <= k < |NatToString(n)| ==> IsDigit(NatToString(n)[k])
  {
    if n >= 10 {
      NatToStringDigits(n / 10);
    }
  }

  /** The value of a string of decimal digits (the inverse of `NatToString`). */
  function DigitsValue(s: string): nat
    requires forall k :: 0 <= k < |s| ==> IsDigit(s[k])
  {
    if s == [] then 0 else 10 * DigitsValue(s[..|s| - 1]) + DigitValue(s[|s| - 1])
  }

  lemma {:induction false} DigitsRoundTrip(n: nat)
    ensures var s := NatToString(n); (forall k :: 0 <= k < |s| ==> IsDigit(s[k])) && DigitsValue(s) == n
  {
    NatToStringDigits(n);
    if n >= 10 {
      NatToStringDigits(n / 10);
      var s := NatToString(n);
      assert s[..|s| - 1] == NatToString(n / 10);
      DigitsRoundTrip(n / 10);
    }
  }

  /** `NatToString` is injective: different numbers render differently. */
  lemma NatToStringInjective(m: nat, n: nat)
    requires NatToString(m) == NatToString(n)
    ensures m == n
  {
    DigitsRoundTrip(m);
    DigitsRoundTrip(n);
  }

  /** `f"{i}"` for any integer. */
  function IntToString(i: int): string {
    if i < 0 then "-" + NatToString(-i) else NatToString(i)
  }
}
