/**
 * The regular expressions of both converters, written out as predicates over
 * strings, and the `re.sub` rewrites that strip list markers.
 *
 * A pattern anchored with `^` is a prefix test; a `re.search` is "some
 * position and some choice of the optional parts match". `\b` is the boundary
 * between a word and a non-word character (or an end of the string).
 */
module Patterns {
  import opened Text

  // ---------------------------------------------------------------------------
  // Markers

  /** The six bullet glyphs • ◦ - * ▪ ▫. */
  predicate IsBulletGlyph(c: char) {
    c == '\U{2022}' || c == '\U{25E6}' || c == '-' || c == '*' || c == '\U{25AA}' || c == '\U{25AB}'
  }

  /** The character class `[\s•◦\-*▪▫]`. */
  predicate IsMarkerChar(c: char) { IsSpace(c) || IsBulletGlyph(c) }

  /** `re.match(r'^[\s•◦\-*▪▫]', s)`. */
  predicate StartsWithMarker(s: string) { |s| > 0 && IsMarkerChar(s[0]) }

  /** `re.match(r'^\s*\d+\.', s)`, as a scan: skip whitespace, then a non-empty run of digits, then '.'. */
  predicate NumberedMarker(s: string) {
    var t := TrimStart(s);
    var u := DropWhile(t, IsDigit);
    |u| < |t| && u != [] && u[0] == '.'
  }

  /** The same pattern read as a regular expression: a prefix of `s` splits into whitespace, digits and '.'. */
  ghost predicate NumberedMarkerRegex(s: string) {
    exists i, j :: 0 <= i < j < |s| && AllOf(s[..i], IsSpace) && AllOf(s[i..j], IsDigit) && s[j] == '.'
  }

  /** `re.match(r'^\s*[a-zA-Z]\.', s)`, as a scan. */
  predicate LetteredMarker(s: string) {
    var t := TrimStart(s);
    |t| >= 2 && IsAsciiLetter(t[0]) && t[1] == '.'
  }

  ghost predicate LetteredMarkerRegex(s: string) {
    exists i :: 0 <= i && i + 1 < |s| && AllOf(s[..i], IsSpace) && IsAsciiLetter(s[i]) && s[i + 1] == '.'
  }

  lemma NumberedMarkerIsRegex(s: string)
    ensures NumberedMarker(s) <==> NumberedMarkerRegex(s)
  {
    if NumberedMarker(s) {
      NumberedMarkerGivesRegex(s);
    }
    if NumberedMarkerRegex(s) {
      var i, j :| 0 <= i < j < |s| && AllOf(s[..i], IsSpace) && AllOf(s[i..j], IsDigit) && s[j] == '.';
      RegexGivesNumberedMarker(s, i, j);
    }
  }

  lemma NumberedMarkerGivesRegex(s: string)
    requires NumberedMarker(s)
    ensures NumberedMarkerRegex(s)
  {
    var t := TrimStart(s);
    var u := DropWhile(t, IsDigit);
    DropWhileFacts(s, IsSpace);
    DropWhileFacts(t, IsDigit);
    var i, j := |s| - |t|, |s| - |u|;
    assert t == s[i..];
    assert t[..|t| - |u|] == s[i..j];
    assert s[j] == u[0];
    assert AllOf(s[i..j], IsDigit);
    assert s[..i] == s[..|s| - |t|];
    assert 0 <= i < j < |s| && AllOf(s[..i], IsSpace) && AllOf(s[i..j], IsDigit) && s[j] == '.';
  }

  lemma RegexGivesNumberedMarker(s: string, i: nat, j: nat)
    requires i < j < |s| && AllOf(s[..i], IsSpace) && AllOf(s[i..j], IsDigit) && s[j] == '.'
    ensures NumberedMarker(s)
  {
    assert IsDigit(s[i..j][0]);
    DropWhileAt(s, IsSpace, i);
    var t := s[i..];
    assert t[..j - i] == s[i..j];
    DropWhileAt(t, IsDigit, j - i);
    assert t[j - i..] == s[j..];
  }

  lemma LetteredMarkerIsRegex(s: string)
    ensures LetteredMarker(s) <==> LetteredMarkerRegex(s)
  {
    var t := TrimStart(s);
    DropWhileFacts(s, IsSpace);
    var i := |s| - |t|;
    assert t == s[i..];
    if LetteredMarker(s) {
      assert s[i] == t[0] && s[i + 1] == t[1];
    }
    if LetteredMarkerRegex(s) {
      var i' :| 0 <= i' && i' + 1 < |s| && AllOf(s[..i'], IsSpace) && IsAsciiLetter(s[i']) && s[i' + 1] == '.';
      DropWhileAt(s, IsSpace, i');
    }
  }

  // ---------------------------------------------------------------------------
  // Contact details

  /** `\b` at position `p` of `s` (0 <= p <= |s|). */
  predicate IsWordBoundary(s: string, p: int)
    requires 0 <= p <= |s|
  {
    (0 < p && IsWordChar(s[p - 1])) != (p < |s| && IsWordChar(s[p]))
  }

  /** `[-.]`. */
  predicate IsPhoneSeparator(c: char) { c == '-' || c == '.' }

  /**
   * `\b\d{3}[-.]?\d{3}[-.]?\d{4}\b` matches at `i`, where `a` and `b` (each 0 or 1)
   * say whether the first and the second optional separator are present.
   */
  predicate PhoneAt(s: string, i: int, a: int, b: int) {
    && 0 <= i && 0 <= a <= 1 && 0 <= b <= 1 && i + 10 + a + b <= |s|
    && AllOf(s[i..i + 3], IsDigit)
    && (a == 1 ==> IsPhoneSeparator(s[i + 3]))
    && AllOf(s[i + 3 + a..i + 6 + a], IsDigit)
    && (b == 1 ==> IsPhoneSeparator(s[i + 6 + a]))
    && AllOf(s[i + 6 + a + b..i + 10 + a + b], IsDigit)
    && IsWordBoundary(s, i) && IsWordBoundary(s, i + 10 + a + b)
  }

  /** `re.search(r'\b\d{3}[-.]?\d{3}[-.]?\d{4}\b', s)`. */
  predicate HasPhone(s: string) {
    exists i, a, b | 0 <= i <= |s| && 0 <= a <= 1 && 0 <= b <= 1 :: PhoneAt(s, i, a, b)
  }

  /** `[A-Za-z0-9._%+-]`. */
  predicate IsLocalPartChar(c: char) { IsAsciiLetter(c) || IsDigit(c) || c in "._%+-" }

  /** `[A-Za-z0-9.-]`. */
  predicate IsDomainChar(c: char) { IsAsciiLetter(c) || IsDigit(c) || c == '.' || c == '-' }

  /** `[A-Z|a-z]`: as written, the class also admits '|'. */
  predicate IsTopLevelChar(c: char) { IsAsciiLetter(c) || c == '|' }

  /**
   * `\b[A-Za-z0-9._%+-]+@[A-Za-z0-9.-]+\.[A-Z|a-z]{2,}\b` matches `s[i..e]`, with the
   * '@' at `at` and the '.' before the top-level part at `dot`.
   */
  predicate EmailAt(s: string, i: int, at: int, dot: int, e: int) {
    && 0 <= i < at && at + 1 < dot && dot + 3 <= e <= |s|
    && AllOf(s[i..at], IsLocalPartChar)
    && s[at] == '@'
    && AllOf(s[at + 1..dot], IsDomainChar)
    && s[dot] == '.'
    && AllOf(s[dot + 1..e], IsTopLevelChar)
    && IsWordBoundary(s, i) && IsWordBoundary(s, e)
  }

  /** `re.search` of the e-mail pattern. */
  predicate HasEmail(s: string) {
    exists i, at, dot, e | 0 <= i < at < dot < e <= |s| :: EmailAt(s, i, at, dot, e)
  }

  // ---------------------------------------------------------------------------
  // Keywords

  /** `any(keyword in text.lower() for keyword in keywords)`. */
  predicate MentionsKeyword(text: string, keywords: seq<string>) {
    exists k | 0 <= k < |keywords| :: Contains(Lower(text), keywords[k])
  }

  // ---------------------------------------------------------------------------
  // Marker stripping

  /** `re.sub(r'^[\s•◦\-*▪▫]+', '', s)`. */
  function StripMarkerRun(s: string): string {
    DropWhile(s, IsMarkerChar)
  }

  /** `re.sub(r'^\d+\.\s*', '', s)`. */
  function StripNumbered(s: string): (r: string)
    ensures IsSuffix(r, s)
  {
    var u := DropWhile(s, IsDigit);
    DropWhileFacts(s, IsDigit);
    if |u| < |s| && u != [] && u[0] == '.' then
      var r := TrimStart(u[1..]);
      DropWhileFacts(u[1..], IsSpace);
      SuffixTransitive(r, u[1..], s);
      r
    else s
  }

  /** `re.sub(r'^[a-zA-Z]\.\s*', '', s)`. */
  function StripLettered(s: string): (r: string)
    ensures IsSuffix(r, s)
  {
    if |s| >= 2 && IsAsciiLetter(s[0]) && s[1] == '.' then
      var r := TrimStart(s[2..]);
      DropWhileFacts(s[2..], IsSpace);
      SuffixTransitive(r, s[2..], s);
      r
    else s
  }

  /** The marker run, then a "digits." prefix, each followed by `strip()`. */
  function CleanNumberedBullet(s: string): string {
    Strip(StripNumbered(Strip(StripMarkerRun(s))))
  }

  /** As `CleanNumberedBullet`, then also a "letter." prefix, followed by `strip()`. */
  function CleanBullet(s: string): string {
    Strip(StripLettered(CleanNumberedBullet(s)))
  }

  /** The class `[\s•◦\-*▪▫\d.]` of the plain-text fallback. */
  predicate IsFallbackMarkerChar(c: char) { IsMarkerChar(c) || IsDigit(c) || c == '.' }

  /** `re.sub(r'^[\s•◦\-*▪▫\d.]+', '', s).strip()`. */
  function CleanFallbackBullet(s: string): string {
    Strip(DropWhile(s, IsFallbackMarkerChar))
  }

  /** Each cleaner leaves a suffix of its input (less trailing whitespace); `Strip` leaves no whitespace at either end. */
  lemma CleanNumberedBulletKeepsSuffix(s: string)
    ensures IsSuffix(CleanNumberedBullet(s), TrimEnd(s))
  {
    var a := Strip(StripMarkerRun(s));
    DropWhileFacts(s, IsMarkerChar);
    StripFacts(StripMarkerRun(s));
    StripSuffix(StripMarkerRun(s), s);
    var b := StripNumbered(a);
    StripSuffix(b, a);
    StripStripped(a);
    SuffixTransitive(Strip(b), a, TrimEnd(s));
  }

  /** On a line already stripped, the cleaned bullet is a suffix of the line itself. */
  lemma CleanStrippedKeepsSuffix(s: string)
    requires IsStripped(s)
    ensures IsSuffix(CleanNumberedBullet(s), s)
  {
    CleanNumberedBulletKeepsSuffix(s);
    StripStripped(s);
  }

  lemma CleanBulletKeepsSuffix(s: string)
    ensures IsSuffix(CleanBullet(s), TrimEnd(s))
  {
    var c := CleanNumberedBullet(s);
    CleanNumberedBulletKeepsSuffix(s);
    StripFacts(StripNumbered(Strip(StripMarkerRun(s))));
    StripSuffix(StripLettered(c), c);
    StripStripped(c);
    SuffixTransitive(CleanBullet(s), c, TrimEnd(s));
  }

  lemma CleanFallbackBulletKeepsSuffix(s: string)
    ensures IsSuffix(CleanFallbackBullet(s), TrimEnd(s))
  {
    DropWhileFacts(s, IsFallbackMarkerChar);
    StripSuffix(DropWhile(s, IsFallbackMarkerChar), s);
  }

  /** Text made only of whitespace and bullet glyphs cleans to nothing. */
  lemma MarkersOnlyCleanToEmpty(s: string)
    requires AllOf(s, IsMarkerChar)
    ensures CleanNumberedBullet(s) == [] && CleanBullet(s) == []
  {
    DropWhileFacts(s, IsMarkerChar);
  }

  /** Text made only of markers, digits and full stops cleans to nothing in the fallback. */
  lemma FallbackMarkersOnlyCleanToEmpty(s: string)
    requires AllOf(s, IsFallbackMarkerChar)
    ensures CleanFallbackBullet(s) == []
  {
    DropWhileFacts(s, IsFallbackMarkerChar);
  }

  /** Stripped text that does not begin with a marker or a digit is left as it is. */
  lemma CleanNumberedBulletFixpoint(s: string)
    requires s != [] && !IsSpace(s[|s| - 1])
    requires !IsMarkerChar(s[0]) && !IsDigit(s[0])
    ensures CleanNumberedBullet(s) == s
  {
    DropWhileAt(s, IsMarkerChar, 0);
    StripStripped(s);
    DropWhileAt(s, IsDigit, 0);
  }

  /** Cleaning twice changes nothing when the first result does not itself begin with a glyph or a digit. */
  lemma CleanNumberedBulletIdempotentWhen(s: string)
    requires var r := CleanNumberedBullet(s); r == [] || (!IsBulletGlyph(r[0]) && !IsDigit(r[0]))
    ensures CleanNumberedBullet(CleanNumberedBullet(s)) == CleanNumberedBullet(s)
  {
    var r := CleanNumberedBullet(s);
    StripFacts(StripNumbered(Strip(StripMarkerRun(s))));
    if r != [] {
      CleanNumberedBulletFixpoint(r);
    }
  }

  /**
   * In general cleaning is not idempotent: behind a number, a glyph survives the
   * first pass ("1. - x" cleans to "- x") and is removed by the second ("x").
   */
  lemma CleanNumberedBulletNotIdempotent(t: string)
    requires t != [] && !IsMarkerChar(t[0]) && !IsDigit(t[0]) && !IsSpace(t[|t| - 1])
    ensures CleanNumberedBullet("1. - " + t) == "- " + t
    ensures CleanNumberedBullet("- " + t) == t
  {
    assert "1. - " + t == "1. " + ("- " + t);
    NoMarkerRun("1. - " + t);
    StripStripped("1. - " + t);
    NumberedPrefix("- " + t);
    StripStripped("- " + t);
    GlyphSpacePrefix(t);
    StripStripped(t);
    NoNumber(t);
  }

  lemma NoMarkerRun(s: string)
    requires s != [] && !IsMarkerChar(s[0])
    ensures StripMarkerRun(s) == s
  {
    DropWhileAt(s, IsMarkerChar, 0);
  }

  lemma GlyphSpacePrefix(t: string)
    requires t != [] && !IsMarkerChar(t[0])
    ensures StripMarkerRun("- " + t) == t
  {
    var g := "- " + t;
    assert g[..2] == "- ";
    DropWhileAt(g, IsMarkerChar, 2);
    assert g[2..] == t;
  }

  lemma NumberedPrefix(t: string)
    requires t != [] && !IsSpace(t[0])
    ensures StripNumbered("1. " + t) == t
  {
    var s := "1. " + t;
    assert s[..1] == "1";
    DropWhileAt(s, IsDigit, 1);
    var u := s[1..];
    assert u[1..] == " " + t;
    assert (" " + t)[..1] == " ";
    DropWhileAt(" " + t, IsSpace, 1);
    assert (" " + t)[1..] == t;
  }

  lemma NoNumber(s: string)
    requires s != [] && !IsDigit(s[0])
    ensures StripNumbered(s) == s
  {
    DropWhileAt(s, IsDigit, 0);
  }
}
