/**
 * The "ultra" converter: every line of a page becomes a classified text block
 * (heading, section header, bullet, contact line, indented line or paragraph)
 * emitted with its own formatting; pages without character data fall back to
 * a line-by-line parse of the page text.
 */
module Ultra {
  import opened Options
  import opened Text
  import opened Patterns
  import opened Doc
  import opened Layout

  // ---------------------------------------------------------------------------
  // Classification

  datatype Tag = Heading1 | Heading2 | SectionHeader | Bullet | Contact | Indented | Paragraph

  const SectionKeywords: seq<string> :=
    ["experience", "education", "skills", "summary", "objective", "projects", "certifications"]

  /** What the classifier looks at in the text itself. */
  datatype Features = Features(allCaps: bool, marker: bool, contact: bool, section: bool, length: nat)

  function FeaturesOf(text: string): Features {
    Features(
      IsUpper(text),
      StartsWithMarker(text) || NumberedMarker(text),
      HasPhone(text) || HasEmail(text),
      MentionsKeyword(text, SectionKeywords),
      |text|)
  }

  /** The classifier over the features: size first, then case, markers, contact details, section words and indentation. */
  function ClassifyOn(f: Features, fontSize: real, indent: real): Tag {
    if fontSize > 16.0 then Heading1
    else if fontSize > 14.0 || (f.allCaps && f.length < 50) then Heading2
    else if f.marker then Bullet
    else if f.contact then Contact
    else if f.section && f.length < 30 then SectionHeader
    else if indent > 50.0 then Indented
    else Paragraph
  }

  /** `classify_text_type`. */
  function Classify(text: string, fontSize: real, indent: real): Tag {
    ClassifyOn(FeaturesOf(text), fontSize, indent)
  }

  /** A size over 16 always gives a level-1 heading, and nothing else does. */
  lemma Heading1ExactlyWhenLarge(text: string, fontSize: real, indent: real)
    ensures Classify(text, fontSize, indent).Heading1? <==> fontSize > 16.0
  {
  }

  /** Short all-caps text is a heading even when it names a section or carries contact details. */
  lemma AllCapsShortIsHeading(text: string, fontSize: real, indent: real)
    requires IsUpper(text) && |text| < 50
    ensures Classify(text, fontSize, indent).Heading1? || Classify(text, fontSize, indent).Heading2?
  {
  }

  /** A leading marker wins over contact details and section words. */
  lemma MarkerBeatsContact(text: string, fontSize: real, indent: real)
    requires fontSize <= 14.0 && !(IsUpper(text) && |text| < 50)
    requires StartsWithMarker(text) || NumberedMarker(text)
    ensures Classify(text, fontSize, indent).Bullet?
  {
  }

  /** A size above 14 and at most 16 always gives a level-2 heading, whatever the text and indent. */
  lemma Heading2WhenMidSize(text: string, fontSize: real, indent: real)
    requires 14.0 < fontSize <= 16.0
    ensures Classify(text, fontSize, indent) == Heading2
  {
  }

  /**
   * First match wins: each tag holds exactly when its own test passes and every
   * earlier test fails.
   */
  lemma ClassifyTagMeaning(text: string, fontSize: real, indent: real)
    ensures var t := Classify(text, fontSize, indent);
      var caps := IsUpper(text) && |text| < 50;
      var marker := StartsWithMarker(text) || NumberedMarker(text);
      var contact := HasPhone(text) || HasEmail(text);
      var section := MentionsKeyword(text, SectionKeywords) && |text| < 30;
      && (t.Heading1? <==> fontSize > 16.0)
      && (t.Heading2? <==> fontSize <= 16.0 && (fontSize > 14.0 || caps))
      && (t.Bullet? <==> fontSize <= 14.0 && !caps && marker)
      && (t.Contact? <==> fontSize <= 14.0 && !caps && !marker && contact)
      && (t.SectionHeader? <==> fontSize <= 14.0 && !caps && !marker && !contact && section)
      && (t.Indented? <==> fontSize <= 14.0 && !caps && !marker && !contact && !section && indent > 50.0)
      && (t.Paragraph? <==> fontSize <= 14.0 && !caps && !marker && !contact && !section && indent <= 50.0)
  {
  }

  /** Indentation only matters once every content rule has failed. */
  lemma IndentOnlyDecidesLast(text: string, fontSize: real, i1: real, i2: real)
    requires !Classify(text, fontSize, i1).Indented? && !Classify(text, fontSize, i1).Paragraph?
    ensures Classify(text, fontSize, i2) == Classify(text, fontSize, i1)
  {
  }

  // ---------------------------------------------------------------------------
  // Text blocks

  /** What is collected per line key: the characters and, per character, size, font and horizontal position. */
  datatype LineData = LineData(chars: seq<Char>, fontSizes: seq<real>, fonts: seq<string>, xPositions: seq<real>)

  predicate LineDataOk(d: LineData) {
    |d.fontSizes| == |d.chars| && |d.fonts| == |d.chars| && |d.xPositions| == |d.chars|
  }

  function DataOf(cs: seq<Char>): (d: LineData)
    ensures LineDataOk(d)
  {
    LineData(cs, Sizes(cs), Fonts(cs), XPositions(cs))
  }

  datatype Block = EmptyLine | TextBlock(tag: Tag, text: string, fontSize: real, font: string, indent: real)

  /**
   * A line's block: its characters left to right, joined and stripped; empty
   * text gives an empty block, otherwise the mean size, a most common font, the
   * leftmost position and the classification.
   */
  function BlockOf(d: LineData): (b: Block)
    requires LineDataOk(d)
    ensures var text := Strip(LineText(SortByX(d.chars)));
      && (b.EmptyLine? <==> text == [])
      && (b.TextBlock? ==>
            && b.text == text
            && b.fontSize == Mean(d.fontSizes)
            && b.font in d.fonts
            && (forall f :: f in d.fonts ==> multiset(d.fonts)[f] <= multiset(d.fonts)[b.font])
            && b.indent in d.xPositions
            && (forall i :: 0 <= i < |d.xPositions| ==> b.indent <= d.xPositions[i])
            && b.tag == Classify(b.text, b.fontSize, b.indent))
  {
    var text := Strip(LineText(SortByX(d.chars)));
    assert d.chars == [] ==> LineText(SortByX(d.chars)) == [];
    if text == [] then EmptyLine
    else
      var size := Mean(d.fontSizes);
      var font := MostCommon(d.fonts);
      var indent := if d.xPositions != [] then MinOf(d.xPositions) else 0.0;
      TextBlock(Classify(text, size, indent), text, size, font, indent)
  }

  /** The block of the line with key `k`. */
  function LineBlock(chars: seq<Char>, k: int): Block {
    BlockOf(DataOf(CharsOn(chars, k, Hundredths)))
  }

  function LineBlocks(chars: seq<Char>): int -> Block {
    k => LineBlock(chars, k)
  }

  /** One block per line (key rounded to hundredths), from the top of the page down. */
  function TextBlocks(chars: seq<Char>): seq<Block> {
    MapSeq(SortedLineKeys(chars, Hundredths), LineBlocks(chars))
  }

  /** Block `i` is the `i`-th line from the top, and every line has exactly one block. */
  lemma TextBlocksAreLinesTopDown(chars: seq<Char>)
    ensures var ks := SortedLineKeys(chars, Hundredths);
      && |TextBlocks(chars)| == |ks|
      && StrictlyDescending(ks)
      && (forall c :: c in chars ==> LineKey(c, Hundredths) in ks)
      && (forall i :: 0 <= i < |ks| ==> TextBlocks(chars)[i] == LineBlock(chars, ks[i]))
  {
    forall c | c in chars
      ensures LineKey(c, Hundredths) in SortedLineKeys(chars, Hundredths)
    {
      assert c in CharsOn(chars, LineKey(c, Hundredths), Hundredths);
    }
  }

  lemma CharsOnSnoc(chars: seq<Char>, i: nat, k: int, p: Precision)
    requires i < |chars|
    ensures CharsOn(chars[..i + 1], k, p)
         == CharsOn(chars[..i], k, p) + (if LineKey(chars[i], p) == k then [chars[i]] else [])
  {
    assert chars[..i + 1][..i] == chars[..i];
  }

  /** The dict `analyze_text_blocks` fills: each character appended to the data under its line key. */
  function LinesMap(cs: seq<Char>): map<int, LineData> {
    if cs == [] then map[]
    else
      var lines := LinesMap(cs[..|cs| - 1]);
      var c := cs[|cs| - 1];
      var d := if c.yKey2 in lines then lines[c.yKey2] else LineData([], [], [], []);
      lines[c.yKey2 := Extend(d, c)]
  }

  /** One character added to a line's data. */
  function Extend(d: LineData, c: Char): LineData {
    LineData(d.chars + [c], d.fontSizes + [SizeOf(c)], d.fonts + [FontOf(c)], d.xPositions + [c.x0])
  }

  lemma ExtendData(cs: seq<Char>, c: Char)
    ensures Extend(DataOf(cs), c) == DataOf(cs + [c])
  {
    assert (cs + [c])[..|cs|] == cs;
  }

  lemma LineOfOtherKey(cs: seq<Char>, c: Char, k: int)
    requires k != c.yKey2
    ensures CharsOn(cs + [c], k, Hundredths) == CharsOn(cs, k, Hundredths)
  {
    assert (cs + [c])[..|cs|] == cs;
  }

  lemma LineOfOwnKey(cs: seq<Char>, c: Char)
    ensures DataOf(CharsOn(cs + [c], c.yKey2, Hundredths)) == Extend(DataOf(CharsOn(cs, c.yKey2, Hundredths)), c)
  {
    assert (cs + [c])[..|cs|] == cs;
    ExtendData(CharsOn(cs, c.yKey2, Hundredths), c);
  }

  lemma LinesMapStep(cs: seq<Char>, c: Char)
    ensures var lines := LinesMap(cs);
      var d := if c.yKey2 in lines then lines[c.yKey2] else LineData([], [], [], []);
      LinesMap(cs + [c]) == lines[c.yKey2 := Extend(d, c)]
  {
    assert (cs + [c])[..|cs|] == cs;
  }

  /** The key list after one more character: its key is appended when new. */
  lemma GroupKeysStep(cs: seq<Char>, c: Char)
    ensures var ks := LineKeys(cs, Hundredths);
      LineKeys(cs + [c], Hundredths) == if c.yKey2 in ks then ks else ks + [c.yKey2]
  {
    assert (cs + [c])[..|cs|] == cs;
  }

  /** The line data after one more character: only that character's line grows. */
  lemma GroupValuesStep(cs: seq<Char>, c: Char, lines: map<int, LineData>)
    requires forall k :: k in lines ==> lines[k] == DataOf(CharsOn(cs, k, Hundredths))
    requires forall k :: k !in lines ==> CharsOn(cs, k, Hundredths) == []
    ensures var y := c.yKey2;
      var d := if y in lines then lines[y] else LineData([], [], [], []);
      var lines' := lines[y := Extend(d, c)];
      forall k :: k in lines' ==> lines'[k] == DataOf(CharsOn(cs + [c], k, Hundredths))
  {
    var y := c.yKey2;
    var d := if y in lines then lines[y] else LineData([], [], [], []);
    var lines' := lines[y := Extend(d, c)];
    LineOfOwnKey(cs, c);
    forall k | k in lines'
      ensures lines'[k] == DataOf(CharsOn(cs + [c], k, Hundredths))
    {
      if k != y {
        LineOfOtherKey(cs, c, k);
      }
    }
  }

  /** The dict holds exactly the page's line keys, and under each the data of exactly that line's characters. */
  lemma {:induction false} LinesMapMeaning(cs: seq<Char>)
    ensures forall k :: k in LinesMap(cs) <==> k in LineKeys(cs, Hundredths)
    ensures forall k :: k in LinesMap(cs) ==> LinesMap(cs)[k] == DataOf(CharsOn(cs, k, Hundredths))
  {
    if cs != [] {
      var init := cs[..|cs| - 1];
      var c := cs[|cs| - 1];
      assert cs == init + [c];
      LinesMapMeaning(init);
      GroupKeysStep(init, c);
      GroupValuesStep(init, c, LinesMap(init));
    }
  }

  /** The grouping loop of `analyze_text_blocks`: a dict from line key to that line's data, and its keys in insertion order. */
  method GroupByLine(chars: seq<Char>) returns (lines: map<int, LineData>, order: seq<int>)
    ensures lines == LinesMap(chars) && order == LineKeys(chars, Hundredths)
  {
    lines := map[];
    order := [];
    for i := 0 to |chars|
      invariant lines == LinesMap(chars[..i]) && order == LineKeys(chars[..i], Hundredths)
    {
      var c := chars[i];
      var y := c.yKey2;
      TakeSnoc(chars, i);
      LinesMapMeaning(chars[..i]);
      LinesMapStep(chars[..i], c);
      GroupKeysStep(chars[..i], c);
      if y !in lines {
        order := order + [y];
      }
      var d := if y in lines then lines[y] else LineData([], [], [], []);
      lines := lines[y := Extend(d, c)];
    }
    assert chars[..|chars|] == chars;
  }

  /** The block made from the dict entry of a line key is that line's block. */
  lemma LineBlockFromMap(chars: seq<Char>, k: int)
    requires k in LineKeys(chars, Hundredths)
    ensures k in LinesMap(chars) && LineDataOk(LinesMap(chars)[k])
    ensures BlockOf(LinesMap(chars)[k]) == LineBlocks(chars)(k)
  {
    LinesMapMeaning(chars);
  }

  /** `analyze_text_blocks`: groups the characters into lines, then makes one block per line, top-down. */
  method AnalyzeTextBlocks(chars: seq<Char>) returns (blocks: seq<Block>)
    ensures blocks == TextBlocks(chars)
  {
    var lines, order := GroupByLine(chars);
    var sorted := SortDescending(order);
    blocks := [];
    for t := 0 to |sorted|
      invariant blocks == MapSeq(sorted[..t], LineBlocks(chars))
    {
      assert sorted[t] in order;
      LineBlockFromMap(chars, sorted[t]);
      TakeSnoc(sorted, t);
      MapSeqSnoc(sorted[..t], sorted[t], LineBlocks(chars));
      blocks := blocks + [BlockOf(lines[sorted[t]])];
    }
    assert sorted[..|sorted|] == sorted;
  }

  // ---------------------------------------------------------------------------
  // Emitting blocks

  /** `add_formatted_text_block`: the nodes a block adds (none for a bullet made only of markers). */
  function BlockNodes(b: Block): (r: seq<Node>)
    ensures |r| <= 1 && TextOnly(r)
  {
    match b
    case EmptyLine => [Blank]
    case TextBlock(tag, text, size, _, _) =>
      match tag
      case Heading1 => [Heading(1, text, Left, false)]
      case Heading2 => [Heading(2, text, Left, false)]
      case SectionHeader => [Heading(2, text, Left, true)]
      case Bullet =>
        ListItem(CleanNumberedBullet(text))
      case Contact => [Para(text, Normal, Center, false, RunFormat(Some(11), false, true))]
      case Indented => [Para(text, Normal, Unset, true, RunFormat(Some(10), false, false))]
      case Paragraph => [Para(text, Normal, Unset, false, RunFormat(if size > 12.0 then Some(size.Floor) else None, false, false))]
  }

  /** Only a bullet made of nothing but markers is dropped. */
  lemma BlockNodesDropOnlyEmptyBullets(b: Block)
    ensures BlockNodes(b) == [] <==> b.TextBlock? && b.tag.Bullet? && CleanNumberedBullet(b.text) == []
  {
  }

  /** Every block other than a bullet keeps its text unchanged. */
  lemma BlockNodesKeepText(b: Block)
    requires b.TextBlock? && !b.tag.Bullet?
    ensures |BlockNodes(b)| == 1 && NodeText(BlockNodes(b)[0]) == b.text
  {
  }

  /** A bullet becomes a list paragraph holding the line less its leading markers: a suffix of the line, with no whitespace at either end. */
  lemma BulletKeepsSuffix(text: string)
    requires IsStripped(text)
    ensures forall n :: n in ListItem(CleanNumberedBullet(text)) ==> IsSuffix(n.text, text) && IsStripped(n.text)
  {
    CleanStrippedKeepsSuffix(text);
    StripFacts(StripNumbered(Strip(StripMarkerRun(text))));
  }

  /** Only a level-1 block gives a level-1 heading. */
  lemma BlockNodesHeading1(b: Block)
    ensures (exists n :: n in BlockNodes(b) && n.Heading? && n.level == 1) <==> b.TextBlock? && b.tag.Heading1?
  {
    if b.TextBlock? && b.tag.Heading1? {
      assert BlockNodes(b)[0] in BlockNodes(b);
    }
  }

  /** A paragraph block's run size is the whole part of its mean size, and only above 12 points. */
  lemma ParagraphSize(b: Block)
    requires b.TextBlock? && b.tag == Paragraph
    ensures var n := BlockNodes(b)[0];
      && (n.run.size.Some? <==> b.fontSize > 12.0)
      && (n.run.size.Some? ==> 12 <= n.run.size.value && n.run.size.value as real <= b.fontSize < n.run.size.value as real + 1.0)
  {
  }

  /** `add_formatted_text_block` on the document. */
  method AddFormattedTextBlock(doc: Document, block: Block)
    modifies doc
    ensures doc.body == old(doc.body) + BlockNodes(block)
  {
    if block.EmptyLine? {
      doc.Append(Blank);
      return;
    }
    var text := block.text;
    match block.tag
    case Heading1 =>
      doc.Append(Heading(1, text, Left, false));
    case Heading2 =>
      doc.Append(Heading(2, text, Left, false));
    case SectionHeader =>
      doc.Append(Heading(2, text, Left, true));
    case Bullet =>
      var clean := Strip(StripMarkerRun(text));
      clean := Strip(StripNumbered(clean));
      if clean != [] {
        doc.Append(Para(clean, ListBullet, Unset, false, Plain));
      }
    case Contact =>
      doc.Append(Para(text, Normal, Center, false, RunFormat(Some(11), false, true)));
    case Indented =>
      doc.Append(Para(text, Normal, Unset, true, RunFormat(Some(10), false, false)));
    case Paragraph =>
      var size := if block.fontSize > 12.0 then Some(block.fontSize.Floor) else None;
      doc.Append(Para(text, Normal, Unset, false, RunFormat(size, false, false)));
  }

  function BlocksNodes(blocks: seq<Block>): seq<Node> {
    ConcatMap(blocks, BlockNodes)
  }

  // ---------------------------------------------------------------------------
  // Plain-text fallback

  /** One stripped line of the page text: blank, heading, bullet (cleaned) or plain paragraph. */
  function SmartLineNodes(raw: string): (r: seq<Node>)
    ensures |r| <= 1 && TextOnly(r)
  {
    var line := Strip(raw);
    if line == [] then [Blank]
    else if IsUpper(line) && |line| < 50 then [Heading(2, line, Unset, false)]
    else if StartsWithMarker(line) || NumberedMarker(line) then
      ListItem(CleanFallbackBullet(line))
    else [PlainPara(line)]
  }

  /** `smart_text_parsing`: the nodes of each line of the text, in order. */
  function SmartNodes(text: string): seq<Node> {
    ConcatMap(SplitOn(text, '\n'), SmartLineNodes)
  }

  /** The fallback emits at most one node per line and never a level-1 heading or an underlined one. */
  lemma {:induction false} SmartNodesShape(lines: seq<string>)
    ensures var r := ConcatMap(lines, SmartLineNodes);
      && |r| <= |lines|
      && forall i :: 0 <= i < |r| ==> !(r[i].Heading? && (r[i].level == 1 || r[i].underline))
  {
    if lines != [] {
      SmartNodesShape(lines[..|lines| - 1]);
    }
  }

  /** A line of whitespace gives a blank paragraph, and only such a line does. */
  lemma SmartLineBlank(raw: string)
    ensures SmartLineNodes(raw) == [Blank] <==> AllOf(raw, IsSpace)
  {
    StripFacts(raw);
  }

  /** The text of a fallback node: empty, the stripped line, or the line with its markers cleaned off. */
  lemma SmartLineText(raw: string)
    requires SmartLineNodes(raw) != []
    ensures var t := NodeText(SmartLineNodes(raw)[0]);
      t == [] || t == Strip(raw) || t == CleanFallbackBullet(Strip(raw))
  {
  }

  /** Each fallback node carries a suffix of its line, less trailing whitespace. */
  lemma SmartLineKeepsSuffix(raw: string)
    requires SmartLineNodes(raw) != []
    ensures IsSuffix(NodeText(SmartLineNodes(raw)[0]), TrimEnd(raw))
  {
    var line := Strip(raw);
    var t := NodeText(SmartLineNodes(raw)[0]);
    SmartLineText(raw);
    StripSuffix(raw, raw);
    if t == CleanFallbackBullet(line) {
      StripFacts(raw);
      StripStripped(line);
      CleanFallbackBulletKeepsSuffix(line);
      SuffixTransitive(t, line, TrimEnd(raw));
    }
  }

  /** The body of `smart_text_parsing`'s loop for one line. */
  method AddSmartLine(doc: Document, raw: string)
    modifies doc
    ensures doc.body == old(doc.body) + SmartLineNodes(raw)
  {
    var line := Strip(raw);
    if line == [] {
      doc.Append(Blank);
    } else if IsUpper(line) && |line| < 50 {
      doc.Append(Heading(2, line, Unset, false));
    } else if StartsWithMarker(line) || NumberedMarker(line) {
      var clean := CleanFallbackBullet(line);
      if clean != [] {
        doc.Append(Para(clean, ListBullet, Unset, false, Plain));
      }
    } else {
      doc.Append(PlainPara(line));
    }
  }

  /** `smart_text_parsing` on the document. */
  method SmartTextParsing(doc: Document, text: string)
    modifies doc
    ensures doc.body == old(doc.body) + SmartNodes(text)
  {
    var lines := SplitOn(text, '\n');
    for i := 0 to |lines|
      invariant doc.body == old(doc.body) + ConcatMap(lines[..i], SmartLineNodes)
    {
      TakeSnoc(lines, i);
      ConcatMapSnoc(lines[..i], lines[i], SmartLineNodes);
      AppendAssoc(old(doc.body), ConcatMap(lines[..i], SmartLineNodes), SmartLineNodes(lines[i]));
      AddSmartLine(doc, lines[i]);
    }
    assert lines[..|lines|] == lines;
  }

  // ---------------------------------------------------------------------------
  // Pages

  /** The text part of a page: blocks when it has characters, else the fallback when it has text, else nothing. */
  function PageTextNodes(p: Page): (r: seq<Node>)
    ensures TextOnly(r)
  {
    if p.chars != [] then
      ConcatMapTextOnly(TextBlocks(p.chars), BlockNodes);
      BlocksNodes(TextBlocks(p.chars))
    else if HasText(p) then
      ConcatMapTextOnly(SplitOn(p.text.value, '\n'), SmartLineNodes);
      SmartNodes(p.text.value)
    else []
  }

  /** A page: its tables (cell text at 11 points), then its text. */
  function PageNodes(p: Page): (r: seq<Node>)
    ensures NoPageBreak(r)
  {
    TableNodes(p.tables, Some(11)) + PageTextNodes(p)
  }

  /** `ultra_preserve_formatting`: the pages one after another, separated by page breaks. */
  function Convert(pdf: seq<Page>): seq<Node> {
    Paginate(MapSeq(pdf, PageNodes))
  }

  /** Splitting the document at its page breaks gives back exactly the pages, one part per page. */
  lemma ConvertSplitsIntoPages(pdf: seq<Page>)
    requires pdf != []
    ensures SplitAtBreaks(Convert(pdf)) == MapSeq(pdf, PageNodes)
    ensures |SplitAtBreaks(Convert(pdf))| == |pdf|
  {
    PaginateRoundTrip(MapSeq(pdf, PageNodes));
  }

  /** A page's tables, each followed by its blank paragraph, all come before the first heading or paragraph of its text. */
  lemma TablesBeforeText(p: Page)
    ensures var ns := PageNodes(p);
      forall i, j :: 0 <= i < j < |ns| && ns[j].Table? ==> ns[i].Table? || ns[i] == Blank
  {
    var tn := TableNodes(p.tables, Some(11));
    var tx := PageTextNodes(p);
    var ns := PageNodes(p);
    assert ns == tn + tx;
    forall i, j | 0 <= i < j < |ns| && ns[j].Table?
      ensures ns[i].Table? || ns[i] == Blank
    {
      if j < |tn| {
        assert ns[i] == tn[i];
      } else {
        assert false;
      }
    }
  }

  /** With character data present the plain-text extraction is never consulted. */
  lemma CharsOverrideText(p: Page, text: Option<string>)
    requires p.chars != []
    ensures PageNodes(p) == PageNodes(p.(text := text))
  {
  }

  /** A page with neither tables, characters nor text contributes nothing. */
  lemma EmptyPageIsEmpty(p: Page)
    requires p.tables == [] && p.chars == [] && !HasText(p)
    ensures PageNodes(p) == []
  {
  }

  /** The block loop of `ultra_preserve_formatting`: each block's nodes, in order. */
  method AddTextBlocks(doc: Document, blocks: seq<Block>)
    modifies doc
    ensures doc.body == old(doc.body) + BlocksNodes(blocks)
  {
    for b := 0 to |blocks|
      invariant doc.body == old(doc.body) + ConcatMap(blocks[..b], BlockNodes)
    {
      TakeSnoc(blocks, b);
      ConcatMapSnoc(blocks[..b], blocks[b], BlockNodes);
      AppendAssoc(old(doc.body), ConcatMap(blocks[..b], BlockNodes), BlockNodes(blocks[b]));
      AddFormattedTextBlock(doc, blocks[b]);
    }
    assert blocks[..|blocks|] == blocks;
  }

  /** One page of `ultra_preserve_formatting`'s loop: tables, then blocks or the fallback. */
  method ProcessPage(doc: Document, page: Page)
    requires PageTablesOk(page)
    modifies doc
    ensures doc.body == old(doc.body) + PageNodes(page)
  {
    AddTables(doc, page.tables, Some(11));
    ghost var afterTables := doc.body;
    ghost var text := PageTextNodes(page);
    if page.chars != [] {
      var blocks := AnalyzeTextBlocks(page.chars);
      AddTextBlocks(doc, blocks);
      assert text == BlocksNodes(blocks);
    } else if page.text.Some? && page.text.value != "" {
      SmartTextParsing(doc, page.text.value);
      assert text == SmartNodes(page.text.value);
    } else {
      assert text == [];
    }
    assert doc.body == afterTables + text;
    AppendAssoc(old(doc.body), TableNodes(page.tables, Some(11)), text);
  }

  /** `ultra_preserve_formatting` over the pages of an opened PDF. */
  method UltraPreserveFormatting(pdf: seq<Page>) returns (doc: Document)
    requires forall i :: 0 <= i < |pdf| ==> PageTablesOk(pdf[i])
    ensures fresh(doc)
    ensures doc.body == Convert(pdf)
  {
    doc := new Document();
    for n := 0 to |pdf|
      invariant doc.body == Paginate(MapSeq(pdf[..n], PageNodes))
    {
      TakeSnoc(pdf, n);
      MapSeqSnoc(pdf[..n], pdf[n], PageNodes);
      PaginateSnoc(MapSeq(pdf[..n], PageNodes), PageNodes(pdf[n]));
      if n > 0 {
        doc.Append(PageBreak);
      }
      ProcessPage(doc, pdf[n]);
    }
    assert pdf[..|pdf|] == pdf;
  }
}
