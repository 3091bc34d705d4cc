/**
 * How the two converters differ on the same input: their bullet tests, and
 * the order of the tests in their plain-text fallbacks.
 */
module Compare {
  import opened Text
  import opened Patterns
  import opened Doc
  import Ultra
  import Advanced

  /** On stripped text, every line the "ultra" fallback takes for a bullet the "advanced" test takes for one too. */
  lemma UltraBulletIsAdvancedBullet(line: string)
    requires IsStripped(line)
    requires StartsWithMarker(line) || NumberedMarker(line)
    ensures Advanced.DetectBullet(line)
  {
  }

  /** The converse fails: a lettered item is a bullet only for the "advanced" test. */
  lemma LetteredItemOnlyAdvanced()
    ensures Advanced.DetectBullet("a. item")
    ensures !StartsWithMarker("a. item") && !NumberedMarker("a. item")
  {
    var s := "a. item";
    DropWhileAt(s, IsSpace, 0);
    DropWhileAt(s, IsDigit, 0);
    assert TrimStart(s) == s;
  }

  /** A blank line of page text: a blank paragraph in the "ultra" fallback, nothing in the "advanced" one. */
  lemma BlankLineDiffers(raw: string)
    requires AllOf(raw, IsSpace)
    ensures Ultra.SmartLineNodes(raw) == [Blank]
    ensures Advanced.FallbackLineNodes(raw) == []
  {
    StripFacts(raw);
  }

  /**
   * Short upper-case text opening with a bullet glyph: the "ultra" fallback tests for a heading first,
   * the "advanced" fallback tests for a bullet first.
   */
  lemma UpperBulletPrecedence(raw: string)
    requires var line := Strip(raw); line != [] && IsBulletGlyph(line[0]) && IsUpper(line) && |line| < 50
    ensures Ultra.SmartLineNodes(raw) == [Heading(2, Strip(raw), Unset, false)]
    ensures forall n :: n in Advanced.FallbackLineNodes(raw) ==> n.Para? && n.style == ListBullet
  {
    Advanced.BulletNodesKeepSuffix(Strip(raw));
  }

  /** Such a line exists. */
  lemma UpperBulletExample()
    ensures var line := Strip("- ABC"); line != [] && IsBulletGlyph(line[0]) && IsUpper(line) && |line| < 50
  {
    var s := "- ABC";
    DropWhileAt(s, IsSpace, 0);
    assert TrimStart(s) == s;
    assert TrimEnd(s) == s;
    assert IsAsciiLetter(s[2]);
  }
}
