/**
 * The few Python `str` builtins the agents rely on: `strip()`, `endswith`,
 * the substring test `in`, and `str(n)` for a non-negative integer.
 * Whitespace is a fixed ASCII subset of Python's whitespace; the
 * separators `\x1c`-`\x1f` and the Unicode spaces, which `str.isspace()`
 * and the regex class `\s` also accept, are not modelled.
 */
module Text {

  /** Space, tab, line feed, carriage return, vertical tab, form feed. */
  predicate IsWs(c: char)
  {
    c == ' ' || c == '\t' || c == '\n' || c == '\r' || c == '\U{000B}' || c == '\U{000C}'
  }

  /** Neither end of `s` is whitespace (vacuously true of the empty string). */
  predicate NoEdgeWs(s: string)
  {
    s == [] || (!IsWs(s[0]) && !IsWs(s[|s| - 1]))
  }

  /** The first index at or after `i` that is not whitespace (or `|s|`). */
  function SkipWs(s: string, i: nat): (k: nat)
    requires i <= |s|
    ensures i <= k <= |s|
    ensures forall m :: i <= m < k ==> IsWs(s[m])
    ensures k == |s| || !IsWs(s[k])
    decreases |s| - i
  {
    if i < |s| && IsWs(s[i]) then SkipWs(s, i + 1) else i
  }

  /** Scanning back from `j` to no further than `lo`: the start of the
      whitespace run that ends at `j`. */
  function SkipWsBack(s: string, lo: nat, j: nat): (k: nat)
    requires lo <= j <= |s|
    ensures lo <= k <= j
    ensures forall m :: k <= m < j ==> IsWs(s[m])
    ensures k == lo || !IsWs(s[k - 1])
    decreases j
  {
    if lo < j && IsWs(s[j - 1]) then SkipWsBack(s, lo, j - 1) else j
  }

  /** `r` is the segment of `s` starting at `a` that is left once all
      leading and all trailing whitespace is removed. */
  ghost predicate StrippedAt(s: string, r: string, a: nat)
  {
    && a + |r| <= |s|
    && s[a..a + |r|] == r
    && (forall i :: 0 <= i < a ==> IsWs(s[i]))
    && (forall i :: a + |r| <= i < |s| ==> IsWs(s[i]))
    && NoEdgeWs(r)
  }

  /** Python's `s.strip()`: skip the leading whitespace, then cut the
      trailing whitespace off what is left. */
  function Strip(s: string): (r: string)
    ensures exists a :: StrippedAt(s, r, a)
  {
    var a := SkipWs(s, 0);
    var b := SkipWsBack(s, a, |s|);
    assert StrippedAt(s, s[a..b], a);
    s[a..b]
  }

  /** Unfolds `StrippedAt` into facts about single characters of `s`. */
  lemma StrippedChars(s: string, r: string, a: nat)
    requires StrippedAt(s, r, a)
    ensures forall i :: 0 <= i < a ==> IsWs(s[i])
    ensures forall i :: a + |r| <= i < |s| ==> IsWs(s[i])
    ensures r != [] ==> !IsWs(s[a]) && !IsWs(s[a + |r| - 1])
  {
    if r != [] {
      assert s[a..a + |r|][0] == s[a];
      assert s[a..a + |r|][|r| - 1] == s[a + |r| - 1];
    }
  }

  /** The declarative description of stripping fixes the result: whatever
      segment satisfies it is exactly what `Strip` returns. */
  lemma StripUnique(s: string, r: string, a: nat)
    requires StrippedAt(s, r, a)
    ensures r == Strip(s)
  {
    var r' := Strip(s);
    var a': nat :| StrippedAt(s, r', a');
    StrippedChars(s, r, a);
    StrippedChars(s, r', a');
    if r != [] && r' != [] {
      // Both begin at the first non-whitespace character and end at the last.
      assert a == a';
      assert a + |r| == a' + |r'|;
    }
  }

  /** `pat` occurs in `s` at index `i`. */
  predicate OccursAt(s: string, pat: string, i: nat)
  {
    i + |pat| <= |s| && s[i..i + |pat|] == pat
  }

  /** Python's `pat in s`, stated declaratively. */
  ghost predicate Occurs(s: string, pat: string)
  {
    exists i :: OccursAt(s, pat, i)
  }

  function ContainsFrom(s: string, pat: string, from: nat): (r: bool)
    ensures r <==> exists i :: from <= i && OccursAt(s, pat, i)
    decreases |s| + 1 - from
  {
    if from + |pat| > |s| then false
    else if OccursAt(s, pat, from) then true
    else ContainsFrom(s, pat, from + 1)
  }

  /** Python's `pat in s`, as a left-to-right search. */
  function Contains(s: string, pat: string): (r: bool)
    ensures r <==> Occurs(s, pat)
  {
    ContainsFrom(s, pat, 0)
  }

  /** Python's `s.startswith(prefix)`. */
  predicate StartsWith(s: string, prefix: string)
  {
    |prefix| <= |s| && s[..|prefix|] == prefix
  }

  /** Python's `s.endswith(suffix)`. */
  predicate EndsWith(s: string, suffix: string)
  {
    |suffix| <= |s| && s[|s| - |suffix|..] == suffix
  }

  predicate IsDigit(c: char)
  {
    '0' <= c <= '9'
  }

  function DigitChar(d: nat): (c: char)
    requires d < 10
    ensures IsDigit(c) && (c as int) - ('0' as int) == d
  {
    (('0' as int) + d) as char
  }

  /** Python's `str(n)` for `n >= 0`: decimal digits, no leading zero. */
  function Decimal(n: nat): (r: string)
    ensures |r| > 0
    ensures forall i :: 0 <= i < |r| ==> IsDigit(r[i])
    ensures |r| > 1 ==> r[0] != '0'
  {
    if n < 10 then [DigitChar(n)] else Decimal(n / 10) + [DigitChar(n % 10)]
  }

  /** The value of a string of decimal digits (`int(s)`). */
  function DigitsValue(s: string): nat
    requires forall i :: 0 <= i < |s| ==> IsDigit(s[i])
  {
    if s == [] then 0
    else
      assert IsDigit(s[|s| - 1]);
      DigitsValue(s[..|s| - 1]) * 10 + ((s[|s| - 1] as int) - ('0' as int))
  }

  /** `int(str(n)) == n`. */
  lemma {:induction false} DecimalRoundTrip(n: nat)
    ensures DigitsValue(Decimal(n)) == n
  {
    if n >= 10 {
      var r := Decimal(n);
      assert r[..|r| - 1] == Decimal(n / 10);
      DecimalRoundTrip(n / 10);
    }
  }

  /** Distinct numbers print differently. */
  lemma DecimalInjective(m: nat, n: nat)
    requires m != n
    ensures Decimal(m) != Decimal(n)
  {
    DecimalRoundTrip(m);
    DecimalRoundTrip(n);
  }
}
