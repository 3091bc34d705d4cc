/**
 * The Python `str` operations the converters rely on, over `seq<char>`:
 * `strip`, `isupper`, `lower`, `in`, `join` and `split`, and the character
 * classes `\s`, `\d` and `\w` of Python's regular expressions.
 *
 * Whitespace is Python's whole `str.isspace()` set (the same set `\s` matches
 * in a str pattern); digits, word characters and cased letters are the ASCII
 * ones.
 */
module Text {

  // ---------------------------------------------------------------------------
  // Character classes

  /** `c.isspace()`, equivalently `re.match(r'\s', c)`. */
  predicate IsSpace(c: char) {
    || ('\t' <= c <= '\r')
    || ('\U{1C}' <= c <= '\U{1F}')
    || c == ' ' || c == '\U{85}' || c == '\U{A0}' || c == '\U{1680}'
    || ('\U{2000}' <= c <= '\U{200A}')
    || c == '\U{2028}' || c == '\U{2029}' || c == '\U{202F}' || c == '\U{205F}' || c == '\U{3000}'
  }

  /** `\d`, restricted to ASCII digits. */
  predicate IsDigit(c: char) { '0' <= c <= '9' }

  predicate IsAsciiUpper(c: char) { 'A' <= c <= 'Z' }

  predicate IsAsciiLower(c: char) { 'a' <= c <= 'z' }

  /** `[a-zA-Z]`; also the cased characters of `isupper` in this model. */
  predicate IsAsciiLetter(c: char) { IsAsciiUpper(c) || IsAsciiLower(c) }

  /** `\w`, restricted to ASCII. */
  predicate IsWordChar(c: char) { IsAsciiLetter(c) || IsDigit(c) || c == '_' }

  /** Every character of `s` satisfies `p`. */
  predicate AllOf(s: string, p: char -> bool) {
    forall i :: 0 <= i < |s| ==> p(s[i])
  }

  /** `a` is a suffix of `b`. */
  predicate IsSuffix(a: string, b: string) {
    |a| <= |b| && a == b[|b| - |a|..]
  }

  lemma SuffixTransitive(a: string, b: string, c: string)
    requires IsSuffix(a, b) && IsSuffix(b, c)
    ensures IsSuffix(a, c)
  {
    assert b[|b| - |a|..] == c[|c| - |b|..][|b| - |a|..] == c[|c| - |a|..];
  }

  // ---------------------------------------------------------------------------
  // Stripping

  /** Removes the longest prefix whose characters satisfy `p`: `re.sub(r'^[...]+', '', s)`. */
  function DropWhile(s: string, p: char -> bool): string {
    if s != [] && p(s[0]) then DropWhile(s[1..], p) else s
  }

  /** What `DropWhile` removes satisfies `p`, what it keeps is a suffix that does not start with a `p` character. */
  lemma {:induction false} DropWhileFacts(s: string, p: char -> bool)
    ensures var r := DropWhile(s, p);
      && IsSuffix(r, s)
      && AllOf(s[..|s| - |r|], p)
      && (r == [] || !p(r[0]))
      && (r == [] <==> AllOf(s, p))
  {
    if s != [] && p(s[0]) {
      var r := DropWhile(s[1..], p);
      DropWhileFacts(s[1..], p);
      assert s[..|s| - |r|] == [s[0]] + s[1..][..|s| - 1 - |r|];
      assert s == [s[0]] + s[1..];
    }
  }

  /** `DropWhile` stops exactly at the first character that fails `p`. */
  lemma {:induction false} DropWhileAt(s: string, p: char -> bool, k: nat)
    requires k <= |s| && AllOf(s[..k], p) && (k == |s| || !p(s[k]))
    ensures DropWhile(s, p) == s[k..]
  {
    if k > 0 {
      assert p(s[..k][0]);
      assert s[1..][..k - 1] == s[..k][1..];
      DropWhileAt(s[1..], p, k - 1);
      assert s[1..][k - 1..] == s[k..];
    }
  }

  /** `lstrip()`, and the `\s*` at the head of a pattern. */
  function TrimStart(s: string): string {
    DropWhile(s, IsSpace)
  }

  /** `rstrip()`. */
  function TrimEnd(s: string): string {
    if s != [] && IsSpace(s[|s| - 1]) then TrimEnd(s[..|s| - 1]) else s
  }

  /** `rstrip()` keeps a prefix, removes only whitespace, and leaves no whitespace at the end. */
  lemma {:induction false} TrimEndFacts(s: string)
    ensures var r := TrimEnd(s);
      && |r| <= |s| && r == s[..|r|]
      && AllOf(s[|r|..], IsSpace)
      && (r == [] || !IsSpace(r[|r| - 1]))
      && (s != [] && !IsSpace(s[0]) ==> r != [])
  {
    if s != [] && IsSpace(s[|s| - 1]) {
      var init := s[..|s| - 1];
      var r := TrimEnd(init);
      assert TrimEnd(s) == r;
      TrimEndFacts(init);
      assert init[..|r|] == s[..|r|];
      assert s[|r|..] == init[|r|..] + [s[|s| - 1]];
      assert s != [] && !IsSpace(s[0]) ==> init != [] && init[0] == s[0];
    }
  }

  /** No whitespace at either end. */
  predicate IsStripped(s: string) {
    s == [] || (!IsSpace(s[0]) && !IsSpace(s[|s| - 1]))
  }

  /** `strip()`. */
  function Strip(s: string): string {
    TrimEnd(TrimStart(s))
  }

  /** `strip()` leaves no whitespace at either end, and nothing of an all-whitespace string. */
  lemma StripFacts(s: string)
    ensures IsStripped(Strip(s))
    ensures Strip(s) == [] <==> AllOf(s, IsSpace)
  {
    var t := TrimStart(s);
    DropWhileFacts(s, IsSpace);
    TrimEndFacts(t);
    var r := TrimEnd(t);
    if r != [] {
      assert r[0] == t[0];
    }
  }

  /** Trimming the end commutes with taking a suffix. */
  lemma {:induction false} TrimEndSuffix(a: string, b: string)
    requires IsSuffix(a, b)
    ensures IsSuffix(TrimEnd(a), TrimEnd(b))
    decreases |b|
  {
    if a != [] && b != [] && IsSpace(b[|b| - 1]) {
      assert a[|a| - 1] == b[|b| - 1];
      var a', b' := a[..|a| - 1], b[..|b| - 1];
      assert a' == b'[|b'| - |a'|..];
      TrimEndSuffix(a', b');
    }
  }

  /** Stripping a suffix of `b` gives a suffix of `b` without its trailing whitespace. */
  lemma StripSuffix(a: string, b: string)
    requires IsSuffix(a, b)
    ensures IsSuffix(Strip(a), TrimEnd(b))
  {
    var t := TrimStart(a);
    DropWhileFacts(a, IsSpace);
    SuffixTransitive(t, a, b);
    TrimEndSuffix(t, b);
  }

  /** A string with no whitespace at either end is its own `strip()`. */
  lemma StripStripped(s: string)
    requires IsStripped(s)
    ensures Strip(s) == s && TrimEnd(s) == s
  {
    DropWhileAt(s, IsSpace, 0);
  }

  // ---------------------------------------------------------------------------
  // Case

  /** `s.isupper()`: at least one cased character, and no lower-case one. */
  predicate IsUpper(s: string) {
    && (exists i :: 0 <= i < |s| && IsAsciiLetter(s[i]))
    && (forall i :: 0 <= i < |s| ==> !IsAsciiLower(s[i]))
  }

  function LowerChar(c: char): char {
    if IsAsciiUpper(c) then (c as int + 32) as char else c
  }

  /** `s.lower()`. */
  function Lower(s: string): (r: string)
    ensures |r| == |s|
  {
    seq(|s|, i requires 0 <= i < |s| => LowerChar(s[i]))
  }

  /** `w in s`: `w` occurs in `s` at some position. */
  predicate Contains(s: string, w: string) {
    exists i | 0 <= i <= |s| - |w| :: OccursAt(s, w, i)
  }

  predicate OccursAt(s: string, w: string, i: int) {
    0 <= i <= |s| - |w| && s[i..i + |w|] == w
  }

  // ---------------------------------------------------------------------------
  // Joining and splitting

  /** `sep.join(parts)`. */
  function JoinWith(parts: seq<string>, sep: string): string {
    if |parts| == 0 then ""
    else if |parts| == 1 then parts[0]
    else parts[0] + sep + JoinWith(parts[1..], sep)
  }

  /** `s.split(sep)` for a one-character separator: never empty, and no piece holds the separator. */
  function SplitOn(s: string, sep: char): (r: seq<string>)
    ensures |r| >= 1
    ensures forall i :: 0 <= i < |r| ==> sep !in r[i]
  {
    if s == [] then [""]
    else
      var rest := SplitOn(s[1..], sep);
      if s[0] == sep then [""] + rest else [[s[0]] + rest[0]] + rest[1..]
  }

  /** Splitting and re-joining with the same separator gives the string back. */
  lemma {:induction false} JoinSplit(s: string, sep: char)
    ensures JoinWith(SplitOn(s, sep), [sep]) == s
  {
    if s != [] {
      var rest := SplitOn(s[1..], sep);
      JoinSplit(s[1..], sep);
      if s[0] == sep {
        assert ([""] + rest)[1..] == rest;
      } else {
        var r := [[s[0]] + rest[0]] + rest[1..];
        if |rest| > 1 {
          assert r[1..] == rest[1..];
        }
      }
    }
  }
}
