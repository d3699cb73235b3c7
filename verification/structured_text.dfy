/**
 * The pre-strip applied to structured (JSON) model output before it is
 * decoded: thinking models put commentary in front of the
 * `{"thought": ..., "code": ...}` object, so the text is cut to begin at the
 * first match of the regular expression `\{\s*"thought"\s*:`.
 */
module StructuredText {
  import opened Wrappers
  import opened Text

  /** The JSON key the object must open with, quotes included. */
  const ThoughtKey: string := "\"thought\""

  /** The regular expression matches at `i`, checked by scanning forward:
      a brace, whitespace, the key, whitespace, a colon. */
  predicate ThoughtStartsAt(s: string, i: nat)
  {
    && i < |s|
    && s[i] == '{'
    && var k1 := SkipWs(s, i + 1);
       && OccursAt(s, ThoughtKey, k1)
       && var k2 := SkipWs(s, k1 + |ThoughtKey|);
          k2 < |s| && s[k2] == ':'
  }

  /** The shape of a match at `i`, with the key starting at `k1` and the
      colon at `k2`; everything strictly between the pieces is whitespace. */
  ghost predicate ThoughtShape(s: string, i: nat, k1: nat, k2: nat)
  {
    && i < |s|
    && s[i] == '{'
    && i + 1 <= k1
    && OccursAt(s, ThoughtKey, k1)
    && (forall m :: i + 1 <= m < k1 ==> IsWs(s[m]))
    && k1 + |ThoughtKey| <= k2 < |s|
    && (forall m :: k1 + |ThoughtKey| <= m < k2 ==> IsWs(s[m]))
    && s[k2] == ':'
  }

  /** `re.search(r'\{\s*"thought"\s*:', s)` can report a match starting at `i`. */
  ghost predicate ThoughtObjectAt(s: string, i: nat)
  {
    exists k1, k2 :: ThoughtShape(s, i, k1, k2)
  }

  /** `i` is where `re.search` reports its match: the leftmost one. */
  ghost predicate FirstThoughtAt(s: string, i: nat)
  {
    ThoughtObjectAt(s, i) && forall j :: 0 <= j < i ==> !ThoughtObjectAt(s, j)
  }

  /** The scanning check and the declarative shape agree. */
  lemma ThoughtStartsAtIff(s: string, i: nat)
    ensures ThoughtStartsAt(s, i) <==> ThoughtObjectAt(s, i)
  {
    if ThoughtStartsAt(s, i) {
      var k1 := SkipWs(s, i + 1);
      var k2 := SkipWs(s, k1 + |ThoughtKey|);
      assert ThoughtShape(s, i, k1, k2);
    }
    if ThoughtObjectAt(s, i) {
      var k1: nat, k2: nat :| ThoughtShape(s, i, k1, k2);
      ShapeIsScanned(s, i, k1, k2);
    }
  }

  /** A match of the given shape is what the scan finds: each whitespace
      run ends at the key's opening quote and at the colon. */
  lemma ShapeIsScanned(s: string, i: nat, k1: nat, k2: nat)
    requires ThoughtShape(s, i, k1, k2)
    ensures SkipWs(s, i + 1) == k1 && SkipWs(s, k1 + |ThoughtKey|) == k2
  {
    assert s[k1..k1 + |ThoughtKey|][0] == s[k1];
    SkipWsStopsAt(s, i + 1, k1);
    SkipWsStopsAt(s, k1 + |ThoughtKey|, k2);
  }

  /** The scan from `i` stops at the first non-whitespace character `k`. */
  lemma {:induction false} SkipWsStopsAt(s: string, i: nat, k: nat)
    requires i <= k < |s| && !IsWs(s[k])
    requires forall m :: i <= m < k ==> IsWs(s[m])
    ensures SkipWs(s, i) == k
    decreases k - i
  {
    if i < k {
      SkipWsStopsAt(s, i + 1, k);
    }
  }

  /** The leftmost match at or after `from`, if any. */
  function FindThought(s: string, from: nat): (r: Option<nat>)
    ensures r.Some? ==> from <= r.value && ThoughtObjectAt(s, r.value)
    ensures r.Some? ==> forall j :: from <= j < r.value ==> !ThoughtObjectAt(s, j)
    ensures r.None? ==> forall j :: from <= j ==> !ThoughtObjectAt(s, j)
    decreases |s| - from
  {
    if from >= |s| then None
    else if ThoughtStartsAt(s, from) then
      ThoughtStartsAtIff(s, from);
      Some(from)
    else
      ThoughtStartsAtIff(s, from);
      FindThought(s, from + 1)
  }

  /** `extract_internal_structure_text`: the suffix from the first
      `{"thought":` on, or the whole text when there is none. */
  function ExtractInternalStructureText(text: string): (r: string)
    ensures EndsWith(text, r)
    ensures r != text ==> |r| > 0 && r[0] == '{'
  {
    match FindThought(text, 0)
    case None => text
    case Some(i) => text[i..]
  }

  /** Which suffix the pre-strip returns: the whole text when the pattern
      never matches, otherwise the suffix from the leftmost match. */
  lemma ExtractInternalStructureTextSpec(text: string)
    ensures (forall i: nat :: !ThoughtObjectAt(text, i)) ==> ExtractInternalStructureText(text) == text
    ensures forall i: nat :: FirstThoughtAt(text, i) ==> ExtractInternalStructureText(text) == text[i..]
  {
  }

  /** A match survives cutting the text just before it. */
  lemma ThoughtShapeShift(s: string, i: nat, k1: nat, k2: nat)
    requires ThoughtShape(s, i, k1, k2)
    ensures ThoughtShape(s[i..], 0, k1 - i, k2 - i)
  {
    var t := s[i..];
    assert t[k1 - i..k1 - i + |ThoughtKey|] == s[k1..k1 + |ThoughtKey|];
  }

  /** Applying the pre-strip to its own output changes nothing. */
  lemma ExtractInternalStructureTextIdempotent(text: string)
    ensures ExtractInternalStructureText(ExtractInternalStructureText(text))
            == ExtractInternalStructureText(text)
  {
    match FindThought(text, 0)
    case None =>
    case Some(i) =>
      var k1: nat, k2: nat :| ThoughtShape(text, i, k1, k2);
      ThoughtShapeShift(text, i, k1, k2);
      var t := text[i..];
      assert ThoughtObjectAt(t, 0);
      assert FindThought(t, 0) == Some(0);
  }
}
