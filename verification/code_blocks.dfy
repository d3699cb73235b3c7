/**
 * The trailing code-block extractor shared by the three copies in the agent
 * scripts. Each copy builds the regular expression `open(.*?)close` over the
 * two delimiter strings, runs `re.findall` with `re.DOTALL`, and returns the
 * last captured group stripped of surrounding whitespace. Two copies escape
 * the delimiters and anchor the opening one at a line start with `(?m)^`;
 * the third leaves it unanchored.
 *
 * `re.findall` is modelled as an explicit left-to-right scan (`Spans`) whose
 * contract is a declarative description of the non-overlapping,
 * leftmost-first, lazily closed matches (`IsFindall`); `FindallUnique` shows
 * that the description admits exactly one sequence of matches.
 */
module CodeBlocks {
  import opened Wrappers
  import opened Text

  /** The `code_block_tags` pair, e.g. `("<code>", "</code>")`. */
  datatype CodeBlockTags = CodeBlockTags(opening: string, closing: string)

  /** One match: the opening tag begins at `start`, and the closing tag that
      ends the match begins at `close`. */
  datatype Span = Span(start: nat, close: nat)

  /** Where `(?m)^` holds: the start of the text or just after a line feed. */
  predicate AtLineStart(text: string, p: nat)
  {
    p == 0 || (p <= |text| && text[p - 1] == '\n')
  }

  predicate AnchorHolds(text: string, anchored: bool, p: nat)
  {
    !anchored || AtLineStart(text, p)
  }

  /** A match can begin at `p`: the anchor holds there, the opening tag starts
      there, and a closing tag starts somewhere at or after its end. */
  ghost predicate MatchStartsAt(text: string, tags: CodeBlockTags, anchored: bool, p: nat)
  {
    && AnchorHolds(text, anchored, p)
    && OccursAt(text, tags.opening, p)
    && exists j :: p + |tags.opening| <= j && OccursAt(text, tags.closing, j)
  }

  /** `s` is the match beginning at `s.start`: the lazy `(.*?)` stops at the
      first closing tag after the opening tag. */
  ghost predicate IsLazyMatch(text: string, tags: CodeBlockTags, anchored: bool, s: Span)
  {
    && AnchorHolds(text, anchored, s.start)
    && OccursAt(text, tags.opening, s.start)
    && s.start + |tags.opening| <= s.close
    && OccursAt(text, tags.closing, s.close)
    && forall j :: s.start + |tags.opening| <= j < s.close ==> !OccursAt(text, tags.closing, j)
  }

  ghost predicate NoMatchIn(text: string, tags: CodeBlockTags, anchored: bool, lo: nat, hi: nat)
  {
    forall q :: lo <= q < hi ==> !MatchStartsAt(text, tags, anchored, q)
  }

  ghost predicate NoMatchFrom(text: string, tags: CodeBlockTags, anchored: bool, lo: nat)
  {
    forall q :: lo <= q ==> !MatchStartsAt(text, tags, anchored, q)
  }

  /** The position just past a match, where `re.findall` resumes. */
  function After(tags: CodeBlockTags, s: Span): nat
  {
    s.close + |tags.closing|
  }

  /** `ms` is what `re.findall` finds scanning from `from`: every element is a
      lazily closed match, each starts at or after the end of the previous
      one, no match could have begun in any gap, and none begins after the
      last one. */
  ghost predicate IsFindall(text: string, tags: CodeBlockTags, anchored: bool, from: nat, ms: seq<Span>)
  {
    && (forall i :: 0 <= i < |ms| ==> IsLazyMatch(text, tags, anchored, ms[i]))
    && (|ms| == 0 ==> NoMatchFrom(text, tags, anchored, from))
    && (|ms| > 0 ==> from <= ms[0].start && NoMatchIn(text, tags, anchored, from, ms[0].start))
    && (forall i :: 0 <= i < |ms| - 1 ==>
          && After(tags, ms[i]) <= ms[i + 1].start
          && NoMatchIn(text, tags, anchored, After(tags, ms[i]), ms[i + 1].start))
    && (|ms| > 0 ==> NoMatchFrom(text, tags, anchored, After(tags, ms[|ms| - 1])))
  }

  /** The captured group `(.*?)` of a match. */
  function Content(text: string, tags: CodeBlockTags, s: Span): string
    requires s.start + |tags.opening| <= s.close <= |text|
  {
    text[s.start + |tags.opening|..s.close]
  }

  /** The first index at or after `from` where `pat` occurs. */
  function FindFrom(text: string, pat: string, from: nat): (r: Option<nat>)
    ensures r.Some? ==> from <= r.value && OccursAt(text, pat, r.value)
    ensures r.Some? ==> forall j :: from <= j < r.value ==> !OccursAt(text, pat, j)
    ensures r.None? ==> forall j :: from <= j ==> !OccursAt(text, pat, j)
    decreases |text| + 1 - from
  {
    if from + |pat| > |text| then None
    else if OccursAt(text, pat, from) then Some(from)
    else FindFrom(text, pat, from + 1)
  }

  /** One attempt of the regular expression at position `p`. */
  function TryMatch(text: string, tags: CodeBlockTags, anchored: bool, p: nat): (r: Option<Span>)
    ensures r.Some? <==> MatchStartsAt(text, tags, anchored, p)
    ensures r.Some? ==> r.value.start == p && IsLazyMatch(text, tags, anchored, r.value)
  {
    if AnchorHolds(text, anchored, p) && OccursAt(text, tags.opening, p) then
      match FindFrom(text, tags.closing, p + |tags.opening|)
      case Some(j) => Some(Span(p, j))
      case None => None
    else None
  }

  lemma LazyMatchStarts(text: string, tags: CodeBlockTags, anchored: bool, s: Span)
    requires IsLazyMatch(text, tags, anchored, s)
    ensures MatchStartsAt(text, tags, anchored, s.start)
  {
    assert OccursAt(text, tags.closing, s.close);
  }

  lemma FindallSkip(text: string, tags: CodeBlockTags, anchored: bool, from: nat, ms: seq<Span>)
    requires !MatchStartsAt(text, tags, anchored, from)
    requires IsFindall(text, tags, anchored, from + 1, ms)
    ensures IsFindall(text, tags, anchored, from, ms)
  {
  }

  lemma FindallCons(text: string, tags: CodeBlockTags, anchored: bool, s: Span, ms: seq<Span>)
    requires IsLazyMatch(text, tags, anchored, s)
    requires IsFindall(text, tags, anchored, After(tags, s), ms)
    ensures IsFindall(text, tags, anchored, s.start, [s] + ms)
  {
    var r := [s] + ms;
    assert forall i :: 0 < i < |r| ==> r[i] == ms[i - 1];
  }

  lemma FindallTail(text: string, tags: CodeBlockTags, anchored: bool, from: nat, ms: seq<Span>)
    requires IsFindall(text, tags, anchored, from, ms)
    requires |ms| > 0
    ensures IsFindall(text, tags, anchored, After(tags, ms[0]), ms[1..])
  {
    var t := ms[1..];
    assert forall i :: 0 <= i < |t| ==> t[i] == ms[i + 1];
  }

  /** `re.findall` of `open(.*?)close` from position `from`, as a scan. */
  function Spans(text: string, tags: CodeBlockTags, anchored: bool, from: nat): (ms: seq<Span>)
    requires |tags.opening| > 0
    ensures IsFindall(text, tags, anchored, from, ms)
    decreases |text| + 1 - from
  {
    if from > |text| then
      []
    else
      match TryMatch(text, tags, anchored, from)
      case Some(s) =>
        var rest := Spans(text, tags, anchored, After(tags, s));
        FindallCons(text, tags, anchored, s, rest);
        [s] + rest
      case None =>
        var rest := Spans(text, tags, anchored, from + 1);
        FindallSkip(text, tags, anchored, from, rest);
        rest
  }

  /** The declarative description leaves no freedom: two sequences that both
      satisfy it are equal. */
  lemma {:induction false} FindallUnique(text: string, tags: CodeBlockTags, anchored: bool, from: nat,
                                         ms: seq<Span>, ms': seq<Span>)
    requires IsFindall(text, tags, anchored, from, ms)
    requires IsFindall(text, tags, anchored, from, ms')
    ensures ms == ms'
    decreases |ms|
  {
    if ms == [] || ms' == [] {
      FindallEmpty(text, tags, anchored, from, ms, ms');
    } else {
      FirstMatchesAgree(text, tags, anchored, from, ms, ms');
      FindallTail(text, tags, anchored, from, ms);
      FindallTail(text, tags, anchored, from, ms');
      FindallUnique(text, tags, anchored, After(tags, ms[0]), ms[1..], ms'[1..]);
      SameHeadSameTail(ms, ms');
    }
  }

  lemma SameHeadSameTail<T>(a: seq<T>, b: seq<T>)
    requires |a| > 0 && |b| > 0 && a[0] == b[0] && a[1..] == b[1..]
    ensures a == b
  {
    assert a == [a[0]] + a[1..];
    assert b == [b[0]] + b[1..];
  }

  /** A scan that finds nothing leaves nothing for any other scan to find. */
  lemma FindallEmpty(text: string, tags: CodeBlockTags, anchored: bool, from: nat,
                     ms: seq<Span>, ms': seq<Span>)
    requires IsFindall(text, tags, anchored, from, ms)
    requires IsFindall(text, tags, anchored, from, ms')
    requires ms == [] || ms' == []
    ensures ms == [] && ms' == []
  {
    if ms != [] {
      LazyMatchStarts(text, tags, anchored, ms[0]);
    } else if ms' != [] {
      LazyMatchStarts(text, tags, anchored, ms'[0]);
    }
  }

  /** Two scans from the same position find the same first match: the
      leftmost start, closed at the first closing tag. */
  lemma FirstMatchesAgree(text: string, tags: CodeBlockTags, anchored: bool, from: nat,
                          ms: seq<Span>, ms': seq<Span>)
    requires IsFindall(text, tags, anchored, from, ms) && |ms| > 0
    requires IsFindall(text, tags, anchored, from, ms') && |ms'| > 0
    ensures ms[0] == ms'[0]
  {
    var s, s' := ms[0], ms'[0];
    LazyMatchStarts(text, tags, anchored, s);
    LazyMatchStarts(text, tags, anchored, s');
    assert s.start == s'.start;
    assert s.close == s'.close;
  }

  lemma SliceOfSlice(s: string, a: nat, b: nat, i: nat, j: nat)
    requires a <= b <= |s| && i <= j <= b - a
    ensures s[a..b][i..j] == s[a + i..a + j]
  {
    assert forall k :: 0 <= k < j - i ==> s[a..b][i..j][k] == s[a + i + k];
  }

  /** A pattern occurring in a segment of `s` occurs in `s`. */
  lemma OccursInSegment(s: string, a: nat, b: nat, pat: string)
    requires a <= b <= |s|
    requires Occurs(s[a..b], pat)
    ensures Occurs(s, pat)
  {
    var i: nat :| OccursAt(s[a..b], pat, i);
    SliceOfSlice(s, a, b, i, i + |pat|);
    assert OccursAt(s, pat, a + i);
  }

  /** The captured group of a lazy match contains no closing tag. */
  lemma LazyContentHasNoClosing(text: string, tags: CodeBlockTags, anchored: bool, s: Span)
    requires IsLazyMatch(text, tags, anchored, s)
    requires |tags.closing| > 0
    ensures !Occurs(Content(text, tags, s), tags.closing)
  {
    var c := Content(text, tags, s);
    var lo := s.start + |tags.opening|;
    forall i: nat | i + |tags.closing| <= |c|
      ensures OccursAt(c, tags.closing, i) == OccursAt(text, tags.closing, lo + i)
    {
      SliceOfSlice(text, lo, s.close, i, i + |tags.closing|);
    }
  }

  /** `matches = re.findall(pattern, text, re.DOTALL)`, then
      `matches[-1].strip()` when there is a match and `None` otherwise. */
  function ExtractLast(text: string, tags: CodeBlockTags, anchored: bool): (r: Option<string>)
    requires |tags.opening| > 0
    ensures r.None? <==> NoMatchFrom(text, tags, anchored, 0)
    ensures forall ms :: IsFindall(text, tags, anchored, 0, ms) && |ms| > 0 ==>
              r == Some(Strip(Content(text, tags, ms[|ms| - 1])))
    ensures r.Some? ==> NoEdgeWs(r.value) && Occurs(text, r.value)
    ensures r.Some? && |tags.closing| > 0 ==> !Occurs(r.value, tags.closing)
  {
    var ms := Spans(text, tags, anchored, 0);
    if ms == [] then
      NoMatchMeansNoFindall(text, tags, anchored);
      None
    else
      var last := ms[|ms| - 1];
      var c := Content(text, tags, last);
      var r := Strip(c);
      LastSpanFacts(text, tags, anchored, ms, r);
      Some(r)
  }

  lemma NoMatchMeansNoFindall(text: string, tags: CodeBlockTags, anchored: bool)
    requires NoMatchFrom(text, tags, anchored, 0)
    ensures forall ms :: IsFindall(text, tags, anchored, 0, ms) ==> ms == []
  {
    forall ms | IsFindall(text, tags, anchored, 0, ms)
      ensures ms == []
    {
      if ms != [] {
        LazyMatchStarts(text, tags, anchored, ms[0]);
      }
    }
  }

  lemma LastSpanFacts(text: string, tags: CodeBlockTags, anchored: bool, ms: seq<Span>, r: string)
    requires IsFindall(text, tags, anchored, 0, ms) && |ms| > 0
    requires r == Strip(Content(text, tags, ms[|ms| - 1]))
    ensures forall ms' :: IsFindall(text, tags, anchored, 0, ms') && |ms'| > 0 ==>
              r == Strip(Content(text, tags, ms'[|ms'| - 1]))
    ensures NoEdgeWs(r) && Occurs(text, r)
    ensures |tags.closing| > 0 ==> !Occurs(r, tags.closing)
    ensures !NoMatchFrom(text, tags, anchored, 0)
  {
    LazyMatchStarts(text, tags, anchored, ms[0]);
    forall ms' | IsFindall(text, tags, anchored, 0, ms') && |ms'| > 0
      ensures r == Strip(Content(text, tags, ms'[|ms'| - 1]))
    {
      FindallUnique(text, tags, anchored, 0, ms, ms');
    }
    StrippedLastSegment(text, tags, anchored, ms[|ms| - 1], r);
  }

  /** The stripped content of a lazy match is a segment of the text that
      neither starts nor ends with whitespace and holds no closing tag. */
  lemma StrippedLastSegment(text: string, tags: CodeBlockTags, anchored: bool, last: Span, r: string)
    requires IsLazyMatch(text, tags, anchored, last)
    requires r == Strip(Content(text, tags, last))
    ensures NoEdgeWs(r) && Occurs(text, r)
    ensures |tags.closing| > 0 ==> !Occurs(r, tags.closing)
  {
    if |tags.closing| > 0 {
      LazyContentHasNoClosing(text, tags, anchored, last);
    }
    StrippedContentFacts(text, tags, last, tags.closing);
  }

  /** The stripped content of a span has no edge whitespace, occurs in
      `text`, and contains no pattern the content does not contain. */
  lemma StrippedContentFacts(text: string, tags: CodeBlockTags, s: Span, pat: string)
    requires s.start + |tags.opening| <= s.close <= |text|
    ensures var r := Strip(Content(text, tags, s));
            && NoEdgeWs(r)
            && Occurs(text, r)
            && (!Occurs(Content(text, tags, s), pat) ==> !Occurs(r, pat))
  {
    var c := Content(text, tags, s);
    StripOccurs(c);
    OccursInSegment(text, s.start + |tags.opening|, s.close, Strip(c));
    OccursTransitive(c, Strip(c), pat);
  }

  /** The stripped string is a segment of the original, with no edge
      whitespace. */
  lemma StripOccurs(s: string)
    ensures Occurs(s, Strip(s)) && NoEdgeWs(Strip(s))
  {
    var a: nat :| StrippedAt(s, Strip(s), a);
    assert OccursAt(s, Strip(s), a);
  }

  /** Occurrence is transitive: a pattern inside a segment of `s` is inside `s`. */
  lemma OccursTransitive(s: string, m: string, pat: string)
    requires Occurs(s, m)
    ensures Occurs(m, pat) ==> Occurs(s, pat)
  {
    if Occurs(m, pat) {
      var i: nat :| OccursAt(s, m, i);
      OccursInSegment(s, i, i + |m|, pat);
    }
  }

  /** Every line-anchored match is also an unanchored one, so the unanchored
      extractor finds a block whenever the anchored one does. */
  lemma AnchoredFindsImpliesUnanchoredFinds(text: string, tags: CodeBlockTags)
    requires |tags.opening| > 0
    ensures ExtractLast(text, tags, true).Some? ==> ExtractLast(text, tags, false).Some?
  {
    if ExtractLast(text, tags, true).Some? {
      var q: nat :| MatchStartsAt(text, tags, true, q);
      assert MatchStartsAt(text, tags, false, q);
    }
  }
}
