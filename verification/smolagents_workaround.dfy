/**
 * The extractor installed over the framework's own by the workaround
 * script. It interpolates the tags into the pattern without escaping them
 * and without a line anchor; for tags free of regular-expression
 * metacharacters the pattern matches the tags literally, which is the case
 * modelled here.
 */
module SmolagentsWorkaround {
  import opened Wrappers
  import opened Text
  import opened CodeBlocks

  /** Characters with a meaning of their own in a Python regular expression. */
  predicate IsRegexMeta(c: char)
  {
    c in ".^$*+?{}[]\\|()"
  }

  /** A tag that, dropped into a pattern unescaped, matches only itself. */
  predicate RegexLiteral(tag: string)
  {
    forall i :: 0 <= i < |tag| ==> !IsRegexMeta(tag[i])
  }

  /** `extract_last_code_from_text`: the last block whose opening tag occurs
      anywhere, stripped, or `None` when no opening tag is followed by a
      closing tag. */
  function ExtractLastCodeFromText(text: string, tags: CodeBlockTags): (r: Option<string>)
    requires |tags.opening| > 0 && RegexLiteral(tags.opening) && RegexLiteral(tags.closing)
    ensures r.None? <==>
              forall p: nat :: !(OccursAt(text, tags.opening, p)
                                 && exists j :: p + |tags.opening| <= j && OccursAt(text, tags.closing, j))
    ensures forall ms :: IsFindall(text, tags, false, 0, ms) && |ms| > 0 ==>
              r == Some(Strip(Content(text, tags, ms[|ms| - 1])))
    ensures r.Some? ==> NoEdgeWs(r.value) && Occurs(text, r.value)
    ensures r.Some? && |tags.closing| > 0 ==> !Occurs(r.value, tags.closing)
  {
    assert forall p: nat :: MatchStartsAt(text, tags, false, p) <==>
             (OccursAt(text, tags.opening, p)
              && exists j :: p + |tags.opening| <= j && OccursAt(text, tags.closing, j));
    ExtractLast(text, tags, false)
  }

  /** On text without line breaks whose first characters are not the
      opening tag (a block quoted after `> `, as thinking models write it),
      this extractor finds a block wherever an opening tag is followed by a
      closing one, while the line-anchored copies find none. */
  lemma OnlyUnanchoredFindsMidLineBlock(text: string, tags: CodeBlockTags, p: nat, j: nat)
    requires |tags.opening| > 0 && RegexLiteral(tags.opening) && RegexLiteral(tags.closing)
    requires '\n' !in text
    requires !OccursAt(text, tags.opening, 0)
    requires OccursAt(text, tags.opening, p)
    requires p + |tags.opening| <= j && OccursAt(text, tags.closing, j)
    ensures ExtractLastCodeFromText(text, tags).Some?
    ensures ExtractLast(text, tags, true).None?
  {
    assert MatchStartsAt(text, tags, false, p);
    assert NoMatchFrom(text, tags, true, 0);
  }
}
