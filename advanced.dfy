/**
 * The "advanced" converter: every page's tables, then its lines read top-down
 * and gathered into paragraphs, with a line that looks like a header set
 * apart once some text is pending; pages without character data fall back to
 * a line-by-line parse of the page text.
 */
module Advanced {
  import opened Options
  import opened Text
  import opened Patterns
  import opened Doc
  import opened Layout

  // ---------------------------------------------------------------------------
  // Bullets and paragraphs

  const ParagraphKeywords: seq<string> := ["summary", "objective", "experience", "education", "skills"]

  /** `detect_bullet_point`: a leading bullet glyph, or a "digits." or "letter." marker after optional whitespace. */
  predicate DetectBullet(text: string) {
    (text != [] && IsBulletGlyph(text[0])) || NumberedMarker(text) || LetteredMarker(text)
  }

  /** The same test read with the two regular expressions written as patterns over prefixes. */
  lemma DetectBulletIsRegex(text: string)
    ensures DetectBullet(text) <==>
      (text != [] && IsBulletGlyph(text[0])) || NumberedMarkerRegex(text) || LetteredMarkerRegex(text)
  {
    NumberedMarkerIsRegex(text);
    LetteredMarkerIsRegex(text);
  }

  /** `add_bullet_point`: markers, a "digits." and a "letter." prefix removed; nothing when that leaves nothing. */
  function BulletNodes(text: string): seq<Node> {
    ListItem(CleanBullet(text))
  }

  /** A bullet paragraph holds a stripped suffix of the line, less trailing whitespace; glyphs and spaces alone give none. */
  lemma BulletNodesKeepSuffix(text: string)
    ensures forall n :: n in BulletNodes(text) ==>
      n.Para? && n.style == ListBullet && IsSuffix(n.text, TrimEnd(text)) && IsStripped(n.text)
    ensures AllOf(text, IsMarkerChar) ==> BulletNodes(text) == []
  {
    CleanBulletKeepsSuffix(text);
    StripFacts(StripLettered(CleanNumberedBullet(text)));
    if AllOf(text, IsMarkerChar) {
      MarkersOnlyCleanToEmpty(text);
    }
  }

  method AddBulletPoint(doc: Document, text: string)
    modifies doc
    ensures doc.body == old(doc.body) + BulletNodes(text)
  {
    var clean := CleanBullet(text);
    if clean != [] {
      doc.Append(Para(clean, ListBullet, Unset, false, Plain));
    }
  }

  /** `add_formatted_paragraph`: nothing for blank text, else a bullet, a level-2 heading or a paragraph. */
  function ParagraphNodes(raw: string): (r: seq<Node>)
    ensures |r| <= 1 && TextOnly(r)
  {
    var text := Strip(raw);
    if text == [] then []
    else if DetectBullet(text) then BulletNodes(text)
    else if IsUpper(text) && |text| < 50 then [Heading(2, text, Unset, false)]
    else [Para(text, Normal, Unset, false, RunFormat(None, MentionsKeyword(text, ParagraphKeywords), false))]
  }

  /** Blank text adds nothing; otherwise only a bullet made of nothing but markers is dropped. */
  lemma ParagraphNodesEmpty(raw: string)
    ensures ParagraphNodes(raw) == [] <==>
      AllOf(raw, IsSpace) || (DetectBullet(Strip(raw)) && CleanBullet(Strip(raw)) == [])
  {
    StripFacts(raw);
  }

  /** A paragraph that is not a bullet or a heading keeps the stripped text, bold exactly when it names a keyword. */
  lemma ParagraphNodesBold(raw: string)
    requires var text := Strip(raw); text != [] && !DetectBullet(text) && !(IsUpper(text) && |text| < 50)
    ensures var n := ParagraphNodes(raw)[0];
      n.Para? && n.text == Strip(raw) && n.style == Normal && n.run.size == None
      && (n.run.bold <==> MentionsKeyword(Strip(raw), ParagraphKeywords))
  {
  }

  /** Every node text is a suffix of the text with trailing whitespace removed. */
  lemma ParagraphNodesKeepSuffix(raw: string)
    ensures forall n :: n in ParagraphNodes(raw) ==> IsSuffix(NodeText(n), TrimEnd(raw))
  {
    var text := Strip(raw);
    StripSuffix(raw, raw);
    if text != [] && DetectBullet(text) {
      BulletNodesKeepSuffix(text);
      StripFacts(raw);
      StripStripped(text);
      forall n | n in ParagraphNodes(raw)
        ensures IsSuffix(NodeText(n), TrimEnd(raw))
      {
        SuffixTransitive(n.text, text, TrimEnd(raw));
      }
    }
  }

  /** The bullet test comes first: bullet text becomes a list item even when it is short and upper-case. */
  lemma ParagraphNodesBulletFirst(raw: string)
    requires var text := Strip(raw); text != [] && DetectBullet(text)
    ensures ParagraphNodes(raw) == BulletNodes(Strip(raw))
    ensures forall n :: n in ParagraphNodes(raw) ==> n.Para? && n.style == ListBullet
  {
  }

  method AddFormattedParagraph(doc: Document, raw: string)
    modifies doc
    ensures doc.body == old(doc.body) + ParagraphNodes(raw)
  {
    var text := Strip(raw);
    if text == [] {
      return;
    }
    if DetectBullet(text) {
      AddBulletPoint(doc, text);
    } else if IsUpper(text) && |text| < 50 {
      doc.Append(Heading(2, text, Unset, false));
    } else {
      var bold := MentionsKeyword(text, ParagraphKeywords);
      doc.Append(Para(text, Normal, Unset, false, RunFormat(None, bold, false)));
    }
  }

  // ---------------------------------------------------------------------------
  // Lines

  /** The dict of the character loop: under each key rounded to one decimal, that line's characters in page order. */
  function LineDict(cs: seq<Char>): map<int, seq<Char>> {
    if cs == [] then map[]
    else
      var lines := LineDict(cs[..|cs| - 1]);
      var c := cs[|cs| - 1];
      lines[c.yKey1 := (if c.yKey1 in lines then lines[c.yKey1] else []) + [c]]
  }

  lemma LineDictStep(cs: seq<Char>, c: Char)
    ensures var lines := LineDict(cs);
      LineDict(cs + [c]) == lines[c.yKey1 := (if c.yKey1 in lines then lines[c.yKey1] else []) + [c]]
  {
    assert (cs + [c])[..|cs|] == cs;
  }

  lemma LineKeysStep(cs: seq<Char>, c: Char)
    ensures var ks := LineKeys(cs, Tenths);
      LineKeys(cs + [c], Tenths) == if c.yKey1 in ks then ks else ks + [c.yKey1]
  {
    assert (cs + [c])[..|cs|] == cs;
  }

  lemma LineOfOtherKey(cs: seq<Char>, c: Char, k: int)
    requires k != c.yKey1
    ensures CharsOn(cs + [c], k, Tenths) == CharsOn(cs, k, Tenths)
  {
    assert (cs + [c])[..|cs|] == cs;
  }

  lemma LineOfOwnKey(cs: seq<Char>, c: Char)
    ensures CharsOn(cs + [c], c.yKey1, Tenths) == CharsOn(cs, c.yKey1, Tenths) + [c]
  {
    assert (cs + [c])[..|cs|] == cs;
  }

  /** The dict holds exactly the page's line keys, and under each exactly that line's characters. */
  lemma {:induction false} LineDictMeaning(cs: seq<Char>)
    ensures forall k :: k in LineDict(cs) <==> k in LineKeys(cs, Tenths)
    ensures forall k :: k in LineDict(cs) ==> LineDict(cs)[k] == CharsOn(cs, k, Tenths)
  {
    if cs != [] {
      var init := cs[..|cs| - 1];
      var c := cs[|cs| - 1];
      assert cs == init + [c];
      LineDictMeaning(init);
      LineKeysStep(init, c);
      LineOfOwnKey(init, c);
      forall k | k in LineDict(cs)
        ensures LineDict(cs)[k] == CharsOn(cs, k, Tenths)
      {
        if k != c.yKey1 {
          LineOfOtherKey(init, c, k);
        }
      }
    }
  }

  /** The grouping loop: the dict of line keys to characters, and its keys in insertion order. */
  method GroupByLine(chars: seq<Char>) returns (lines: map<int, seq<Char>>, order: seq<int>)
    ensures lines == LineDict(chars) && order == LineKeys(chars, Tenths)
  {
    lines := map[];
    order := [];
    for i := 0 to |chars|
      invariant lines == LineDict(chars[..i]) && order == LineKeys(chars[..i], Tenths)
    {
      var c := chars[i];
      var y := c.yKey1;
      TakeSnoc(chars, i);
      LineDictMeaning(chars[..i]);
      LineDictStep(chars[..i], c);
      LineKeysStep(chars[..i], c);
      if y !in lines {
        order := order + [y];
      }
      var line := if y in lines then lines[y] else [];
      lines := lines[y := line + [c]];
    }
    assert chars[..|chars|] == chars;
  }

  /** What the paragraph loop reads off one line: its stripped text and its mean font size. */
  datatype LineInfo = LineInfo(text: string, avgSize: real)

  /**
   * The line's characters sorted left to right and their text stripped; the size is
   * the mean over the line's characters in any order (12 for an empty line).
   */
  function InfoOf(cs: seq<Char>): (r: LineInfo)
    ensures r.text == Strip(LineText(SortByX(cs))) && IsStripped(r.text)
    ensures cs != [] ==> r.avgSize == Mean(Sizes(cs))
    ensures cs == [] ==> r == LineInfo([], 12.0)
  {
    var sorted := SortByX(cs);
    StripFacts(LineText(sorted));
    if sorted == [] then LineInfo(Strip(LineText(sorted)), 12.0)
    else
      SortByXKeepsMean(cs);
      LineInfo(Strip(LineText(sorted)), Mean(Sizes(sorted)))
  }

  function LineInfoAt(chars: seq<Char>): int -> LineInfo {
    k => InfoOf(CharsOn(chars, k, Tenths))
  }

  /** The lines of a page, top-down. */
  function LineInfos(chars: seq<Char>): seq<LineInfo> {
    MapSeq(SortedLineKeys(chars, Tenths), LineInfoAt(chars))
  }

  /** The `i`-th line read is the line of the `i`-th highest key, and no line is read twice. */
  lemma LineInfosTopDown(chars: seq<Char>, i: int)
    requires 0 <= i < |LineInfos(chars)|
    ensures var ks := SortedLineKeys(chars, Tenths);
      && |LineInfos(chars)| == |ks|
      && LineInfos(chars)[i] == InfoOf(CharsOn(chars, ks[i], Tenths))
      && CharsOn(chars, ks[i], Tenths) != []
      && forall j :: 0 <= j < i ==> ks[j] > ks[i]
  {
    var ks := SortedLineKeys(chars, Tenths);
    assert ks[i] in ks;
  }

  // ---------------------------------------------------------------------------
  // Gathering lines into paragraphs

  /** `avg_font_size > 14 or line_text.isupper() or len(line_text) < 50`. */
  predicate LikelyHeader(l: LineInfo) {
    l.avgSize > 14.0 || IsUpper(l.text) || |l.text| < 50
  }

  /** A header line set apart: a level-2 heading when short and upper-case, else a run, bold and sized above 14 points. */
  function HeaderNode(l: LineInfo): Node {
    if IsUpper(l.text) && |l.text| < 30 then Heading(2, l.text, Unset, false)
    else Para(l.text, Normal, Unset, false, if l.avgSize > 14.0 then RunFormat(Some(l.avgSize.Floor), true, false) else Plain)
  }

  /** A header is a level-2 heading exactly when short and upper-case; otherwise it is bold, at the whole part of its size, exactly above 14 points. */
  lemma HeaderNodeMeaning(l: LineInfo)
    ensures var n := HeaderNode(l);
      && (n.Heading? <==> IsUpper(l.text) && |l.text| < 30)
      && NodeText(n) == l.text
      && (n.Para? ==> (n.run.bold <==> l.avgSize > 14.0) && (n.run.size.Some? <==> l.avgSize > 14.0))
      && (n.Para? && n.run.size.Some? ==>
            14 <= n.run.size.value && n.run.size.value as real <= l.avgSize < n.run.size.value as real + 1.0)
  {
  }

  /** What the loop emits: a paragraph gathered from pending lines, or a header line on its own. */
  datatype Unit = Group(members: seq<LineInfo>) | Header(line: LineInfo)

  function Texts(ls: seq<LineInfo>): (r: seq<string>)
    ensures |r| == |ls|
    ensures forall i :: 0 <= i < |ls| ==> r[i] == ls[i].text
  {
    MapSeq(ls, (l: LineInfo) => l.text)
  }

  /** A group is flushed through `add_formatted_paragraph` with its lines joined by spaces. */
  function UnitNodes(u: Unit): (r: seq<Node>)
    ensures |r| <= 1 && TextOnly(r)
  {
    match u
    case Group(ms) => ParagraphNodes(JoinWith(Texts(ms), " "))
    case Header(l) => [HeaderNode(l)]
  }

  function Flushed(pending: seq<LineInfo>): seq<Unit> {
    if pending == [] then [] else [Group(pending)]
  }

  /** The units one line completes, given the lines pending before it. */
  function NewUnits(pending: seq<LineInfo>, l: LineInfo): seq<Unit> {
    if l.text == [] then Flushed(pending)
    else if LikelyHeader(l) && pending != [] then [Group(pending), Header(l)]
    else []
  }

  /** The lines pending after one line. */
  function NextPending(pending: seq<LineInfo>, l: LineInfo): seq<LineInfo> {
    if l.text == [] then []
    else if LikelyHeader(l) && pending != [] then []
    else pending + [l]
  }

  datatype Acc = Acc(units: seq<Unit>, pending: seq<LineInfo>)

  /** The loop over the lines, from nothing emitted and nothing pending. */
  function Gather(lines: seq<LineInfo>): Acc {
    if lines == [] then Acc([], [])
    else
      var a := Gather(lines[..|lines| - 1]);
      var l := lines[|lines| - 1];
      Acc(a.units + NewUnits(a.pending, l), NextPending(a.pending, l))
  }

  lemma GatherSnoc(lines: seq<LineInfo>, l: LineInfo)
    ensures var a := Gather(lines);
      Gather(lines + [l]) == Acc(a.units + NewUnits(a.pending, l), NextPending(a.pending, l))
  {
    assert (lines + [l])[..|lines|] == lines;
  }

  /** Every unit of the loop, the final flush included. */
  function Units(lines: seq<LineInfo>): seq<Unit> {
    var a := Gather(lines);
    a.units + Flushed(a.pending)
  }

  /** The nodes of a page's lines. */
  function LinesNodes(lines: seq<LineInfo>): (r: seq<Node>)
    ensures TextOnly(r)
  {
    ConcatMapTextOnly(Units(lines), UnitNodes);
    ConcatMap(Units(lines), UnitNodes)
  }

  /** The lines a sequence of units holds, in order. */
  function Members(us: seq<Unit>): seq<LineInfo> {
    if us == [] then []
    else Members(us[..|us| - 1]) + (match us[|us| - 1] case Group(ms) => ms case Header(l) => [l])
  }

  lemma {:induction false} MembersAppend(xs: seq<Unit>, ys: seq<Unit>)
    ensures Members(xs + ys) == Members(xs) + Members(ys)
    decreases |ys|
  {
    if ys == [] {
      assert xs + ys == xs;
    } else {
      var init := ys[..|ys| - 1];
      assert ys == init + [ys[|ys| - 1]];
      assert (xs + ys)[..|xs + ys| - 1] == xs + init;
      MembersAppend(xs, init);
    }
  }

  /** The lines with some text. */
  function NonBlank(lines: seq<LineInfo>): seq<LineInfo> {
    if lines == [] then []
    else NonBlank(lines[..|lines| - 1]) + (if lines[|lines| - 1].text != [] then [lines[|lines| - 1]] else [])
  }

  /** Nothing is lost or reordered: the units hold every line with text, in reading order, and no blank line. */
  lemma {:induction false} UnitsKeepEveryLine(lines: seq<LineInfo>)
    ensures Members(Units(lines)) == NonBlank(lines)
  {
    GatherKeepsEveryLine(lines);
    var a := Gather(lines);
    MembersAppend(a.units, Flushed(a.pending));
  }

  lemma {:induction false} GatherKeepsEveryLine(lines: seq<LineInfo>)
    ensures var a := Gather(lines); Members(a.units) + a.pending == NonBlank(lines)
  {
    if lines != [] {
      var init := lines[..|lines| - 1];
      var l := lines[|lines| - 1];
      var a := Gather(init);
      GatherKeepsEveryLine(init);
      MembersAppend(a.units, NewUnits(a.pending, l));
      var nu := NewUnits(a.pending, l);
      if l.text != [] && LikelyHeader(l) && a.pending != [] {
        assert nu == [Group(a.pending)] + [Header(l)];
        MembersAppend([Group(a.pending)], [Header(l)]);
      }
    }
  }

  /** A paragraph never takes a header-like line after its first; a header stands alone only right after a paragraph. */
  predicate PendingOk(p: seq<LineInfo>) {
    forall j :: 0 < j < |p| ==> !LikelyHeader(p[j])
  }

  predicate UnitOk(us: seq<Unit>, i: int)
    requires 0 <= i < |us|
  {
    && (us[i].Group? ==> us[i].members != [] && PendingOk(us[i].members))
    && (us[i].Header? ==> LikelyHeader(us[i].line) && 0 < i && us[i - 1].Group?)
  }

  predicate WellGrouped(us: seq<Unit>) {
    forall i :: 0 <= i < |us| ==> UnitOk(us, i)
  }

  lemma {:induction false} GatherWellGrouped(lines: seq<LineInfo>)
    ensures WellGrouped(Gather(lines).units) && PendingOk(Gather(lines).pending)
  {
    if lines != [] {
      var init := lines[..|lines| - 1];
      var l := lines[|lines| - 1];
      GatherWellGrouped(init);
      var a := Gather(init);
      var nu := NewUnits(a.pending, l);
      var us := a.units + nu;
      assert Gather(lines) == Acc(us, NextPending(a.pending, l));
      forall i | 0 <= i < |us|
        ensures UnitOk(us, i)
      {
        if i < |a.units| {
          assert UnitOk(a.units, i);
          assert us[i] == a.units[i];
          if a.units[i].Header? {
            assert us[i - 1] == a.units[i - 1];
          }
        } else if i == |a.units| {
          assert us[i] == nu[0];
        } else {
          assert nu == [Group(a.pending), Header(l)];
          assert us[i] == Header(l) && us[i - 1] == Group(a.pending);
        }
      }
      var p := NextPending(a.pending, l);
      if p != [] {
        assert p == a.pending + [l];
        forall j | 0 < j < |p|
          ensures !LikelyHeader(p[j])
        {
          if j < |a.pending| {
            assert p[j] == a.pending[j];
          }
        }
      }
    }
  }

  lemma UnitsWellGrouped(lines: seq<LineInfo>)
    ensures WellGrouped(Units(lines))
  {
    GatherWellGrouped(lines);
    var a := Gather(lines);
    var us := Units(lines);
    forall i | 0 <= i < |us|
      ensures UnitOk(us, i)
    {
      if i < |a.units| {
        assert UnitOk(a.units, i);
        assert us[i] == a.units[i];
        if a.units[i].Header? {
          assert us[i - 1] == a.units[i - 1];
        }
      }
    }
  }

  /** The loop continued over `lines` from the accumulator `a`. */
  function GatherFrom(a: Acc, lines: seq<LineInfo>): Acc {
    if lines == [] then a
    else
      var b := GatherFrom(a, lines[..|lines| - 1]);
      var l := lines[|lines| - 1];
      Acc(b.units + NewUnits(b.pending, l), NextPending(b.pending, l))
  }

  /** Gathering `xs + ys` is gathering `xs` and then going on over `ys`. */
  lemma {:induction false} GatherAppend(xs: seq<LineInfo>, ys: seq<LineInfo>)
    ensures Gather(xs + ys) == GatherFrom(Gather(xs), ys)
    decreases |ys|
  {
    if ys == [] {
      assert xs + ys == xs;
    } else {
      var init := ys[..|ys| - 1];
      assert (xs + ys)[..|xs + ys| - 1] == xs + init;
      GatherAppend(xs, init);
    }
  }

  /** With nothing pending, going on from emitted units `us` emits after them exactly what a fresh loop emits. */
  lemma {:induction false} GatherFromFresh(us: seq<Unit>, ys: seq<LineInfo>)
    ensures GatherFrom(Acc(us, []), ys) == Acc(us + Gather(ys).units, Gather(ys).pending)
    decreases |ys|
  {
    if ys == [] {
      assert us + [] == us;
    } else {
      var init := ys[..|ys| - 1];
      GatherFromFresh(us, init);
      var g := Gather(init);
      AppendAssoc(us, g.units, NewUnits(g.pending, ys[|ys| - 1]));
    }
  }

  /** A whitespace-only line flushes the pending paragraph and leaves nothing pending. */
  lemma BlankLineFlushes(xs: seq<LineInfo>, b: LineInfo)
    requires b.text == []
    ensures Gather(xs + [b]) == Acc(Units(xs), [])
  {
    GatherSnoc(xs, b);
  }

  /** A whitespace-only line cuts the page in two: the lines before it and the lines after it are gathered on their own. */
  lemma BlankSplits(xs: seq<LineInfo>, b: LineInfo, ys: seq<LineInfo>)
    requires b.text == []
    ensures Units(xs + [b] + ys) == Units(xs) + Units(ys)
    ensures LinesNodes(xs + [b] + ys) == LinesNodes(xs) + LinesNodes(ys)
  {
    BlankLineFlushes(xs, b);
    GatherAppend(xs + [b], ys);
    GatherFromFresh(Units(xs), ys);
    var g := Gather(ys);
    AppendAssoc(Units(xs), g.units, Flushed(g.pending));
    ConcatMapAppend(Units(xs), Units(ys), UnitNodes);
  }

  /** A line with text joins the pending paragraph unless it is header-like with text already pending. */
  lemma LineJoinsPending(xs: seq<LineInfo>, l: LineInfo)
    requires l.text != [] && (!LikelyHeader(l) || Gather(xs).pending == [])
    ensures var a := Gather(xs);
      Gather(xs + [l]) == Acc(a.units, a.pending + [l])
  {
    var a := Gather(xs);
    GatherSnoc(xs, l);
    assert NewUnits(a.pending, l) == [];
    assert a.units + [] == a.units;
  }

  /**
   * The quirk of the loop: with nothing pending (at the top of the page or after a
   * blank line), a header-like line is not set apart; it opens the paragraph, and a
   * following body line joins it.
   */
  lemma FirstHeaderLineJoinsParagraph(xs: seq<LineInfo>, l1: LineInfo, l2: LineInfo)
    requires Gather(xs).pending == []
    requires l1.text != [] && l2.text != []
    requires LikelyHeader(l1) && !LikelyHeader(l2)
    ensures Gather(xs + [l1]) == Acc(Gather(xs).units, [l1])
    ensures Gather(xs + [l1, l2]) == Acc(Gather(xs).units, [l1, l2])
    ensures Units(xs + [l1, l2]) == Gather(xs).units + [Group([l1, l2])]
  {
    var us := Gather(xs).units;
    LineJoinsPending(xs, l1);
    assert [] + [l1] == [l1];
    LineJoinsPending(xs + [l1], l2);
    assert [l1] + [l2] == [l1, l2];
    assert xs + [l1] + [l2] == xs + [l1, l2];
    assert Gather(xs + [l1, l2]) == Acc(us, [l1, l2]);
  }

  /** A header-like line after pending text flushes that text as a paragraph and is set apart, leaving nothing pending. */
  lemma HeaderAfterTextStandsAlone(xs: seq<LineInfo>, l: LineInfo)
    requires Gather(xs).pending != []
    requires l.text != [] && LikelyHeader(l)
    ensures var a := Gather(xs);
      Gather(xs + [l]) == Acc(a.units + [Group(a.pending), Header(l)], [])
  {
    GatherSnoc(xs, l);
  }

  lemma SingleNodes(u: Unit)
    ensures ConcatMap([u], UnitNodes) == UnitNodes(u)
  {
    ConcatMapSnoc([], u, UnitNodes);
  }

  lemma PairNodes(u: Unit, v: Unit)
    ensures ConcatMap([u, v], UnitNodes) == UnitNodes(u) + UnitNodes(v)
  {
    ConcatMapSnoc([u], v, UnitNodes);
    assert [u] + [v] == [u, v];
    SingleNodes(u);
  }

  /** A flush, at a blank line or at the end of the page: the pending lines, if any, as one paragraph. */
  method FlushPending(doc: Document, pending: seq<string>, ghost before: seq<LineInfo>)
    requires pending == Texts(before)
    modifies doc
    ensures doc.body == old(doc.body) + ConcatMap(Flushed(before), UnitNodes)
  {
    if pending != [] {
      AddFormattedParagraph(doc, JoinWith(pending, " "));
      SingleNodes(Group(before));
    } else {
      assert before == [];
    }
  }

  /** The header branch of the line loop: the pending lines as one paragraph, then the header line on its own. */
  method FlushWithHeader(doc: Document, pending: seq<string>, ghost before: seq<LineInfo>, l: LineInfo)
    requires pending == Texts(before)
    modifies doc
    ensures doc.body == old(doc.body) + UnitNodes(Group(before)) + UnitNodes(Header(l))
  {
    AddFormattedParagraph(doc, JoinWith(pending, " "));
    doc.Append(HeaderNode(l));
  }

  /** One pass of the line loop: sort the line, then flush, set apart a header or gather the line. */
  method AddLine(doc: Document, pending: seq<string>, lineChars: seq<Char>, ghost before: seq<LineInfo>)
    returns (next: seq<string>)
    requires pending == Texts(before)
    modifies doc
    ensures var l := InfoOf(lineChars);
      && doc.body == old(doc.body) + ConcatMap(NewUnits(before, l), UnitNodes)
      && next == Texts(NextPending(before, l))
  {
    ghost var l := InfoOf(lineChars);
    var sorted := SortByX(lineChars);
    var text := Strip(LineText(sorted));
    assert l.text == text;
    if text == [] {
      assert NewUnits(before, l) == Flushed(before) && NextPending(before, l) == [];
      FlushPending(doc, pending, before);
      return [];
    }
    assert sorted != [];
    var avg := Mean(Sizes(sorted));
    SortByXKeepsMean(lineChars);
    assert l == LineInfo(text, avg);
    assert |pending| == |before|;
    if (avg > 14.0 || IsUpper(text) || |text| < 50) && pending != [] {
      assert LikelyHeader(l) && before != [];
      assert NewUnits(before, l) == [Group(before), Header(l)];
      assert NextPending(before, l) == [];
      FlushWithHeader(doc, pending, before, LineInfo(text, avg));
      PairNodes(Group(before), Header(l));
      AppendAssoc(old(doc.body), UnitNodes(Group(before)), UnitNodes(Header(l)));
      return [];
    }
    assert !LikelyHeader(l) || before == [];
    assert NewUnits(before, l) == [] && NextPending(before, l) == before + [l];
    MapSeqSnoc(before, l, (l: LineInfo) => l.text);
    next := pending + [text];
  }

  /** The dict entry of a line key is that line's characters. */
  lemma LineFromDict(chars: seq<Char>, k: int)
    requires k in LineKeys(chars, Tenths)
    ensures k in LineDict(chars) && LineDict(chars)[k] == CharsOn(chars, k, Tenths)
  {
    LineDictMeaning(chars);
  }

  /** The dict's entries, read in the order of the sorted keys, are the page's lines top-down. */
  lemma DictGivesInfos(chars: seq<Char>, sorted: seq<int>)
    requires sorted == SortedLineKeys(chars, Tenths)
    ensures |sorted| == |LineInfos(chars)|
    ensures forall t :: 0 <= t < |sorted| ==>
      sorted[t] in LineDict(chars) && InfoOf(LineDict(chars)[sorted[t]]) == LineInfos(chars)[t]
  {
    forall t | 0 <= t < |sorted|
      ensures sorted[t] in LineDict(chars) && InfoOf(LineDict(chars)[sorted[t]]) == LineInfos(chars)[t]
    {
      assert sorted[t] in sorted;
      LineFromDict(chars, sorted[t]);
    }
  }

  /** The loop over the sorted lines: what it emits and what it leaves pending. */
  method GatherLines(doc: Document, lines: map<int, seq<Char>>, sorted: seq<int>, ghost infos: seq<LineInfo>)
    returns (pending: seq<string>)
    requires |sorted| == |infos|
    requires forall t :: 0 <= t < |sorted| ==> sorted[t] in lines && InfoOf(lines[sorted[t]]) == infos[t]
    modifies doc
    ensures doc.body == old(doc.body) + ConcatMap(Gather(infos).units, UnitNodes)
    ensures pending == Texts(Gather(infos).pending)
  {
    pending := [];
    for t := 0 to |sorted|
      invariant pending == Texts(Gather(infos[..t]).pending)
      invariant doc.body == old(doc.body) + ConcatMap(Gather(infos[..t]).units, UnitNodes)
    {
      ghost var a := Gather(infos[..t]);
      TakeSnoc(infos, t);
      GatherSnoc(infos[..t], infos[t]);
      ghost var nu := NewUnits(a.pending, infos[t]);
      pending := AddLine(doc, pending, lines[sorted[t]], a.pending);
      ConcatMapAppend(a.units, nu, UnitNodes);
      AppendAssoc(old(doc.body), ConcatMap(a.units, UnitNodes), ConcatMap(nu, UnitNodes));
    }
    assert infos[..|sorted|] == infos;
  }

  /** The character branch of a page: group, read the lines top-down, gather them, and flush what is left. */
  method AddPageLines(doc: Document, chars: seq<Char>)
    modifies doc
    ensures doc.body == old(doc.body) + LinesNodes(LineInfos(chars))
  {
    var lines, order := GroupByLine(chars);
    var sorted := SortDescending(order);
    DictGivesInfos(chars, sorted);
    ghost var infos := LineInfos(chars);
    var pending := GatherLines(doc, lines, sorted, infos);
    ghost var a := Gather(infos);
    FlushPending(doc, pending, a.pending);
    ConcatMapAppend(a.units, Flushed(a.pending), UnitNodes);
    AppendAssoc(old(doc.body), ConcatMap(a.units, UnitNodes), ConcatMap(Flushed(a.pending), UnitNodes));
  }

  // ---------------------------------------------------------------------------
  // Plain-text fallback

  /** One line of the page text: nothing when blank, else a bullet, a level-2 heading or a plain paragraph. */
  function FallbackLineNodes(raw: string): (r: seq<Node>)
    ensures |r| <= 1 && TextOnly(r)
  {
    var line := Strip(raw);
    if line == [] then []
    else if DetectBullet(line) then BulletNodes(line)
    else if IsUpper(line) && |line| < 50 then [Heading(2, line, Unset, false)]
    else [PlainPara(line)]
  }

  function FallbackNodes(text: string): seq<Node> {
    ConcatMap(SplitOn(text, '\n'), FallbackLineNodes)
  }

  /** Blank lines are skipped; every node holds a suffix of its line, less trailing whitespace. */
  lemma FallbackLineMeaning(raw: string)
    ensures AllOf(raw, IsSpace) ==> FallbackLineNodes(raw) == []
    ensures forall n :: n in FallbackLineNodes(raw) ==> IsSuffix(NodeText(n), TrimEnd(raw))
  {
    var line := Strip(raw);
    StripFacts(raw);
    StripSuffix(raw, raw);
    if line != [] && DetectBullet(line) {
      BulletNodesKeepSuffix(line);
      StripStripped(line);
      forall n | n in FallbackLineNodes(raw)
        ensures IsSuffix(NodeText(n), TrimEnd(raw))
      {
        SuffixTransitive(n.text, line, TrimEnd(raw));
      }
    }
  }

  /** A line that is not a bullet and not short upper-case text becomes a plain paragraph of the stripped line. */
  lemma FallbackPlainLine(raw: string)
    requires var line := Strip(raw); line != [] && !DetectBullet(line) && !(IsUpper(line) && |line| < 50)
    ensures FallbackLineNodes(raw) == [PlainPara(Strip(raw))]
  {
  }

  /** The body of the fallback loop for one line. */
  method AddFallbackLine(doc: Document, raw: string)
    modifies doc
    ensures doc.body == old(doc.body) + FallbackLineNodes(raw)
  {
    var line := Strip(raw);
    if line != [] {
      if DetectBullet(line) {
        AddBulletPoint(doc, line);
      } else if IsUpper(line) && |line| < 50 {
        doc.Append(Heading(2, line, Unset, false));
      } else {
        doc.Append(PlainPara(line));
      }
    }
  }

  method AddFallbackText(doc: Document, text: string)
    modifies doc
    ensures doc.body == old(doc.body) + FallbackNodes(text)
  {
    var lines := SplitOn(text, '\n');
    for i := 0 to |lines|
      invariant doc.body == old(doc.body) + ConcatMap(lines[..i], FallbackLineNodes)
    {
      TakeSnoc(lines, i);
      ConcatMapSnoc(lines[..i], lines[i], FallbackLineNodes);
      AppendAssoc(old(doc.body), ConcatMap(lines[..i], FallbackLineNodes), FallbackLineNodes(lines[i]));
      AddFallbackLine(doc, lines[i]);
    }
    assert lines[..|lines|] == lines;
  }

  // ---------------------------------------------------------------------------
  // Pages

  /** The text part of a page: the gathered lines when it has characters, else the fallback when it has text. */
  function PageTextNodes(p: Page): (r: seq<Node>)
    ensures TextOnly(r)
  {
    if p.chars != [] then LinesNodes(LineInfos(p.chars))
    else if HasText(p) then
      ConcatMapTextOnly(SplitOn(p.text.value, '\n'), FallbackLineNodes);
      FallbackNodes(p.text.value)
    else []
  }

  /** A page: its tables (cell text at the default size), then its text. */
  function PageNodes(p: Page): (r: seq<Node>)
    ensures NoPageBreak(r)
  {
    TableNodes(p.tables, None) + PageTextNodes(p)
  }

  /** `extract_with_tables_and_formatting`: the pages one after another, separated by page breaks. */
  function Convert(pdf: seq<Page>): seq<Node> {
    Paginate(MapSeq(pdf, PageNodes))
  }

  /** Splitting the document at its page breaks gives back exactly the pages, one part per page. */
  lemma ConvertSplitsIntoPages(pdf: seq<Page>)
    requires pdf != []
    ensures SplitAtBreaks(Convert(pdf)) == MapSeq(pdf, PageNodes)
    ensures |SplitAtBreaks(Convert(pdf))| == |pdf|
  {
    PaginateRoundTrip(MapSeq(pdf, PageNodes));
  }

  /** A page's tables, each followed by its blank paragraph, all come before the first heading or paragraph of its text. */
  lemma TablesBeforeText(p: Page)
    ensures var ns := PageNodes(p);
      forall i, j :: 0 <= i < j < |ns| && ns[j].Table? ==> ns[i].Table? || ns[i] == Blank
  {
    var tn := TableNodes(p.tables, None);
    var tx := PageTextNodes(p);
    var ns := PageNodes(p);
    assert ns == tn + tx;
    forall i, j | 0 <= i < j < |ns| && ns[j].Table?
      ensures ns[i].Table? || ns[i] == Blank
    {
      if j < |tn| {
        assert ns[i] == tn[i];
      } else {
        assert false;
      }
    }
  }

  /** With character data present the plain-text extraction is never consulted. */
  lemma CharsOverrideText(p: Page, text: Option<string>)
    requires p.chars != []
    ensures PageNodes(p) == PageNodes(p.(text := text))
  {
  }

  method ProcessPage(doc: Document, page: Page)
    requires PageTablesOk(page)
    modifies doc
    ensures doc.body == old(doc.body) + PageNodes(page)
  {
    AddTables(doc, page.tables, None);
    ghost var afterTables := doc.body;
    ghost var text := PageTextNodes(page);
    if page.chars != [] {
      AddPageLines(doc, page.chars);
      assert text == LinesNodes(LineInfos(page.chars));
    } else if page.text.Some? && page.text.value != "" {
      AddFallbackText(doc, page.text.value);
      assert text == FallbackNodes(page.text.value);
    } else {
      assert text == [];
    }
    assert doc.body == afterTables + text;
    AppendAssoc(old(doc.body), TableNodes(page.tables, None), text);
  }

  method ExtractWithTablesAndFormatting(pdf: seq<Page>) returns (doc: Document)
    requires forall i :: 0 <= i < |pdf| ==> PageTablesOk(pdf[i])
    ensures fresh(doc)
    ensures doc.body == Convert(pdf)
  {
    doc := new Document();
    for n := 0 to |pdf|
      invariant doc.body == Paginate(MapSeq(pdf[..n], PageNodes))
    {
      TakeSnoc(pdf, n);
      MapSeqSnoc(pdf[..n], pdf[n], PageNodes);
      PaginateSnoc(MapSeq(pdf[..n], PageNodes), PageNodes(pdf[n]));
      if n > 0 {
        doc.Append(PageBreak);
      }
      ProcessPage(doc, pdf[n]);
    }
    assert pdf[..|pdf|] == pdf;
  }
}
