# pdfToDocx layout heuristics in Dafny

pdfToDocx turns a PDF into a Word document. It reads each page's positioned characters and tables through pdfplumber. It then writes headings, paragraphs, bullet lists and tables through python-docx. Both sides are libraries, so this project models them as data:

- A page is its table grids, its characters and its plain-text extraction (`Layout.Page`).
- A character carries its text, its horizontal position `x0`, an optional size and an optional font name.
- Each character also carries two integer line keys. They stand for `round(y0, 2)` and `round(y0, 1)`.
- A document is a `Doc.Document` object whose `body` is the sequence of appended nodes (`Doc.Node`): headings, paragraphs with their style, alignment, indent and run formatting, tables, and page breaks.

The two converters of the repository are modelled side by side.

- **ultra** (`ultra_converter.py`, module `Ultra`). It groups characters into lines by the two-decimal key and orders the lines top-down. Within a line it orders characters left to right. It derives the line's stripped text, mean size, modal font and leftmost position. It classifies each line with a first-match-wins rule chain: size, then capitals, then list markers, then phone/e-mail, then section words, then indentation. Each tag becomes its own kind of node. A page without characters falls back to a line-by-line parse of its plain text.
- **advanced** (`advanced_converter.py`, module `Advanced`). It groups by the one-decimal key and reads lines top-down. It gathers consecutive lines into a pending paragraph. A blank line flushes that paragraph. A header-like line (large, upper-case or short) is emitted on its own after flushing, but only when some text is pending. Otherwise the line opens the next paragraph. The remainder is flushed at the end of the page. Paragraphs go through a finaliser that detects bullets (glyph, `1.` or `a.` markers), short upper-case headings and keyword bolding.

Both page loops put a page break before every page but the first. They emit every non-empty table grid as a filled table followed by a blank paragraph, and only then the page's text.

Every method that appends to the document is proved against a function stating its whole effect: `doc.body == old(doc.body) + F(input)`. The properties are lemmas about those functions:

- the grouping partitions the characters and orders the lines;
- the within-line sort is a stable permutation;
- the classifier's rule precedence;
- every emitted bullet is a stripped suffix of its line;
- the accumulator loses and reorders no non-blank line;
- the paragraphs it forms have a fixed shape;
- tables come before text;
- splitting the document at its page breaks gives back the pages.

Files:
- `options.dfy`: the Option type;
- `text.dfy`: Python `str` operations;
- `patterns.dfy`: the regular expressions and marker strippers;
- `document.dfy`: the output document;
- `layout.dfy`: characters, lines, sorting, statistics and tables;
- `ultra.dfy` and `advanced.dfy`: the two converters;
- `compare.dfy`: how the two converters differ.

Behaviour of the code worth knowing:

- **Capitals before section words.** Short upper-case text is `heading2` before the section-keyword rule is tried. So an upper-case line is never a section header (`Ultra.ClassifyTagMeaning`, `Ultra.AllCapsShortIsHeading`).
- **No lettered bullets in ultra.** The ultra classifier and its fallback know no lettered (`a.`) bullet, and its block emitter strips no lettered marker. Only the advanced converter handles these (`Compare.LetteredItemOnlyAdvanced`).
- **Empty bullets.** A bullet made only of markers appends no node at all (`Ultra.BlockNodesDropOnlyEmptyBullets`, `Advanced.ParagraphNodesEmpty`).
- **Bullets before capitals in the advanced finaliser.** `"- ABC"` becomes a list item, not a heading (`Advanced.ParagraphNodesBulletFirst`).
- **When the fallback runs.** The plain-text fallback runs exactly when a page has no characters; no exception path leads to it. The two fallbacks differ:
  - ultra emits a blank paragraph for an empty line and tests capitals before markers;
  - advanced skips empty lines and tests markers first (`Compare.BlankLineDiffers`, `Compare.UpperBulletPrecedence`).
- **Keyword bolding.** The advanced converter's paragraph finaliser bolds a paragraph that names one of its five keywords (`Advanced.ParagraphNodesBold`).
- **Stripping twice.** Running the bullet-marker stripper a second time is not a no-op in general: `"1. - x"` cleans to `"- x"`, and again to `"x"` (`Patterns.CleanNumberedBulletNotIdempotent`). It is a no-op when the first result does not start with a glyph or a digit (`Patterns.CleanNumberedBulletIdempotentWhen`).
- **`|` in e-mail domains.** The e-mail pattern's class `[A-Z|a-z]` admits `|` as written (`Patterns.IsTopLevelChar`).

## Model

| member | source | states |
|---|---|---|
| Text.DropWhileFacts | ultra_converter.py:208 | removing a leading run of a character class keeps a suffix that does not start with that class; everything removed is in the class; the result is empty exactly when the whole text is in the class |
| Text.TrimEndFacts | ultra_converter.py:126 | trimming the end keeps a prefix, removes only whitespace and leaves no whitespace at the end |
| Text.StripFacts | ultra_converter.py:126 | `strip()` leaves no whitespace at either end, and it is empty exactly when the text is all whitespace |
| Text.SplitOn | ultra_converter.py:235 | `split('\n')` yields at least one piece and no piece contains the separator |
| Text.JoinSplit | ultra_converter.py:235 | joining the pieces of a split with the separator gives the text back |
| Patterns.NumberedMarkerIsRegex | ultra_converter.py:162 | the scan used for `^\s*\d+\.` holds exactly when a prefix of the text is whitespace, then at least one digit, then `.` |
| Patterns.LetteredMarkerIsRegex | advanced_converter.py:152 | the scan used for `^\s*[a-zA-Z]\.` holds exactly when a prefix of the text is whitespace, then one ASCII letter, then `.` |
| Patterns.StripNumbered | ultra_converter.py:209 | removing `^\d+\.\s*` leaves a suffix of the text |
| Patterns.StripLettered | advanced_converter.py:159 | removing `^[a-zA-Z]\.\s*` leaves a suffix of the text |
| Patterns.CleanNumberedBulletKeepsSuffix | ultra_converter.py:208-209 | the two marker substitutions, each followed by `strip()`, leave a suffix of the text less its trailing whitespace |
| Patterns.CleanStrippedKeepsSuffix | ultra_converter.py:208-209 | on an already stripped line the cleaned bullet is a suffix of the line itself |
| Patterns.CleanBulletKeepsSuffix | advanced_converter.py:157-159 | the three marker substitutions of `add_bullet_point` leave a suffix of the text less its trailing whitespace |
| Patterns.CleanFallbackBulletKeepsSuffix | ultra_converter.py:247 | the fallback's single substitution leaves a suffix of the line less its trailing whitespace |
| Patterns.MarkersOnlyCleanToEmpty | ultra_converter.py:208-210 | text made only of whitespace and bullet glyphs cleans to nothing in both converters' strippers |
| Patterns.FallbackMarkersOnlyCleanToEmpty | ultra_converter.py:247-248 | text made only of markers, digits and full stops cleans to nothing in the fallback |
| Patterns.CleanNumberedBulletFixpoint | ultra_converter.py:208-209 | stripped text that starts with neither a marker nor a digit is left unchanged |
| Patterns.CleanNumberedBulletIdempotentWhen | ultra_converter.py:208-209 | cleaning twice equals cleaning once when the first result starts with neither a glyph nor a digit |
| Patterns.CleanNumberedBulletNotIdempotent | ultra_converter.py:208-209 | `"1. - t"` cleans to `"- t"`, which cleans again to `"t"`: the stripper is not idempotent |
| Doc.ListItem | ultra_converter.py:208-211 | a List Bullet paragraph of the cleaned text is emitted exactly when that text is non-empty |
| Doc.PaginateRoundTrip | ultra_converter.py:47-49 | cutting the document at its page breaks gives back exactly the pages' node sequences |
| Doc.Document.constructor | ultra_converter.py:37 | a new document has an empty body |
| Doc.Document.Append | ultra_converter.py:186 | an `add_*` call appends exactly one node at the end of the body |
| Layout.CharsOn | ultra_converter.py:105-115 | a character is on line `k` exactly when it is on the page and its line key is `k` |
| Layout.LineKeys | ultra_converter.py:105-113 | the dict's keys are distinct, and they are exactly the keys of some character |
| Layout.InsertDescending | ultra_converter.py:122 | inserting a new key into a strictly descending list keeps it strictly descending and adds exactly that key |
| Layout.SortDescending | ultra_converter.py:122 | `sorted(..., reverse=True)` of distinct keys is strictly descending with the same keys |
| Layout.SortedLineKeys | ultra_converter.py:122 | the sorted line keys are strictly descending: one per line, from the top of the page |
| Layout.LinesPartitionChars | ultra_converter.py:105-118 | the lines' characters, one line after another, are a permutation of the page's characters: each character is on exactly one line |
| Layout.InsertByX | ultra_converter.py:125 | inserting a character adds exactly that character |
| Layout.InsertByXSorted | ultra_converter.py:125 | inserting into a left-to-right sequence keeps it left to right |
| Layout.SortByX | ultra_converter.py:125 | the line sorted by `x0` is in left-to-right order and is a permutation of the line |
| Layout.SortByXStable | ultra_converter.py:125 | the sort is stable: characters at the same `x0` keep the reader's order |
| Layout.SortByXKeepsMean | advanced_converter.py:68-82 | sorting a line in place by `x0` leaves its mean font size unchanged |
| Layout.MinOf | ultra_converter.py:135 | `min(x_positions)` is one of the positions and no position is smaller |
| Layout.MostCommonAmong | ultra_converter.py:134 | the chosen candidate is a candidate, and no candidate occurs more often in the list |
| Layout.MostCommon | ultra_converter.py:134 | the chosen font is in the list and no font occurs more often |
| Layout.CellsOf | ultra_converter.py:63 | the cell matrix has one row per grid row and `len(grid[0])` columns |
| Layout.FillCells | ultra_converter.py:63-71 | the filling loop gives a `len(g)` by `len(g[0])` matrix whose cell (i, j) holds the stripped text of a truthy source cell and is untouched otherwise |
| Layout.TableNodes | ultra_converter.py:57-78 | the table part of a page holds tables and blank paragraphs alternating, each table at least one row deep with a rows by columns cell matrix at the given cell size |
| Layout.AddTables | ultra_converter.py:54-78 | the table loop appends exactly the page's table part |
| Ultra.Heading1ExactlyWhenLarge | ultra_converter.py:154-155 | a line is `heading1` exactly when its size exceeds 16, whatever its text and indent |
| Ultra.AllCapsShortIsHeading | ultra_converter.py:154-159 | short upper-case text is always a heading, even when it names a section or holds contact details |
| Ultra.MarkerBeatsContact | ultra_converter.py:162-169 | once the heading rules fail, a leading marker or `N.` makes a bullet, even with a phone number or e-mail |
| Ultra.ClassifyTagMeaning | ultra_converter.py:150-180 | first match wins: each tag holds exactly when its own test passes and every earlier test fails (heading1 above 16; heading2 at most 16 and above 14 or short capitals; bullet a marker; contact a phone or e-mail match; section header a keyword under 30 characters; indented an indent over 50; paragraph when every test fails) |
| Ultra.Heading2WhenMidSize | ultra_converter.py:156-157 | a size above 14 and at most 16 always gives `heading2`, whatever the text and indent |
| Ultra.IndentOnlyDecidesLast | ultra_converter.py:176-180 | changing the indent changes the tag only when every content rule has failed |
| Ultra.BlockOf | ultra_converter.py:124-146 | a line's block is empty exactly when its left-to-right joined text strips to nothing; otherwise it holds that text, the mean size, a font of maximal count, the minimum `x0` and the classifier's tag for them |
| Ultra.TextBlocksAreLinesTopDown | ultra_converter.py:120-124 | there is one block per line key, in strictly descending key order, every character's key is among them, and block `i` is the block of the `i`-th key |
| Ultra.LinesMapMeaning | ultra_converter.py:103-118 | the filled dict has exactly the page's line keys, and under each the characters, sizes, fonts and positions of exactly that line's characters in reader order |
| Ultra.GroupValuesStep | ultra_converter.py:115-118 | one more character extends only its own line's data |
| Ultra.GroupByLine | ultra_converter.py:103-118 | the grouping loop builds exactly that dict and its keys in first-appearance order |
| Ultra.LineBlockFromMap | ultra_converter.py:124-146 | the block made from a dict entry equals the block of that line's characters |
| Ultra.AnalyzeTextBlocks | ultra_converter.py:98-148 | `analyze_text_blocks` returns exactly one block per line, top-down |
| Ultra.BlockNodes | ultra_converter.py:182-231 | a block emits at most one node, a heading or a paragraph |
| Ultra.BlockNodesDropOnlyEmptyBullets | ultra_converter.py:185-211 | a block emits nothing exactly when it is a bullet whose cleaned text is empty |
| Ultra.BlockNodesKeepText | ultra_converter.py:189-231 | every non-bullet block emits one node carrying the block's text unchanged |
| Ultra.BulletKeepsSuffix | ultra_converter.py:206-211 | a bullet's list paragraph holds a suffix of the line with no whitespace at either end |
| Ultra.BlockNodesHeading1 | ultra_converter.py:191-193 | a level-1 heading is emitted exactly for a `heading1` block |
| Ultra.ParagraphSize | ultra_converter.py:226-231 | a paragraph gets an explicit size exactly when its mean size exceeds 12, and that size is the whole part of the mean |
| Ultra.AddFormattedTextBlock | ultra_converter.py:182-231 | the emitter appends exactly the block's nodes |
| Ultra.SmartLineNodes | ultra_converter.py:237-251 | a fallback line emits at most one node, a heading or a paragraph |
| Ultra.SmartNodesShape | ultra_converter.py:233-251 | the fallback emits at most one node per line and never a level-1 or an underlined heading |
| Ultra.SmartLineBlank | ultra_converter.py:238-241 | a fallback line gives a blank paragraph exactly when it is all whitespace |
| Ultra.SmartLineText | ultra_converter.py:238-251 | a fallback node's text is empty, the stripped line or the stripped line with its markers cleaned off |
| Ultra.SmartLineKeepsSuffix | ultra_converter.py:238-251 | a fallback node carries a suffix of its line less trailing whitespace |
| Ultra.AddSmartLine | ultra_converter.py:237-251 | one pass of the fallback loop appends exactly that line's nodes |
| Ultra.SmartTextParsing | ultra_converter.py:233-251 | `smart_text_parsing` appends the nodes of every line of the text, in order |
| Ultra.PageTextNodes | ultra_converter.py:80-93 | a page's text part holds only headings and paragraphs |
| Ultra.PageNodes | ultra_converter.py:53-93 | a page's nodes contain no page break |
| Ultra.ConvertSplitsIntoPages | ultra_converter.py:47-93 | the document cut at its page breaks gives one part per page, that page's nodes |
| Ultra.TablesBeforeText | ultra_converter.py:53-93 | every node before any of a page's tables is a table or a blank paragraph: all tables precede the page's text |
| Ultra.CharsOverrideText | ultra_converter.py:81-93 | with characters present, the plain-text extraction never affects the page |
| Ultra.EmptyPageIsEmpty | ultra_converter.py:53-93 | a page without tables, characters or text adds nothing |
| Ultra.AddTextBlocks | ultra_converter.py:86-87 | the block loop appends every block's nodes in order |
| Ultra.ProcessPage | ultra_converter.py:53-93 | one page appends its tables, then its blocks or its fallback text |
| Ultra.UltraPreserveFormatting | ultra_converter.py:32-96 | the emitted document is the pages' nodes joined by page breaks |
| Advanced.DetectBulletIsRegex | advanced_converter.py:147-152 | `detect_bullet_point` holds exactly for a leading glyph with no whitespace before it, or for `^\s*\d+\.` or `^\s*[a-zA-Z]\.` read as regular expressions |
| Advanced.BulletNodesKeepSuffix | advanced_converter.py:154-162 | a bullet emits at most a List Bullet paragraph holding a stripped suffix of the text, and nothing for text made only of whitespace and glyphs |
| Advanced.AddBulletPoint | advanced_converter.py:154-162 | `add_bullet_point` appends exactly those nodes |
| Advanced.ParagraphNodes | advanced_converter.py:130-145 | the finaliser emits at most one node, a heading or a paragraph |
| Advanced.ParagraphNodesEmpty | advanced_converter.py:132-137 | the finaliser emits nothing exactly when the text is all whitespace or is a bullet that cleans to nothing |
| Advanced.ParagraphNodesBold | advanced_converter.py:140-145 | text that is neither bullet nor short upper-case gives a plain paragraph of the stripped text, bold exactly when it contains one of the five keywords in any case |
| Advanced.ParagraphNodesKeepSuffix | advanced_converter.py:130-145 | every node the finaliser emits holds a suffix of the text less trailing whitespace |
| Advanced.ParagraphNodesBulletFirst | advanced_converter.py:136-139 | the bullet test comes before the capitals test: bullet text gives a list item even when it is short and upper-case |
| Advanced.AddFormattedParagraph | advanced_converter.py:130-145 | `add_formatted_paragraph` appends exactly those nodes |
| Advanced.LineDictMeaning | advanced_converter.py:54-59 | the filled dict has exactly the page's one-decimal line keys, and under each exactly that line's characters in reader order |
| Advanced.GroupByLine | advanced_converter.py:54-59 | the grouping loop builds exactly that dict and its keys in first-appearance order |
| Advanced.InfoOf | advanced_converter.py:68-82 | the line text is stripped, and the average is the mean size of the line's characters taken in any order, so the in-place sort does not change it |
| Advanced.LineInfosTopDown | advanced_converter.py:62-66 | the `i`-th line read is the non-empty line of the `i`-th highest key, below every line read before it |
| Advanced.DictGivesInfos | advanced_converter.py:62-71 | reading the dict in sorted key order gives exactly the page's lines top-down |
| Advanced.HeaderNodeMeaning | advanced_converter.py:95-103 | a header emitted on its own is a level-2 heading exactly when upper-case and under 30 characters; otherwise it is a run that is bold and sized at the whole part of its average exactly when that average exceeds 14 |
| Advanced.UnitNodes | advanced_converter.py:76-103 | a flushed paragraph or a header emits at most one node, a heading or a paragraph |
| Advanced.LinesNodes | advanced_converter.py:64-110 | the character branch emits only headings and paragraphs |
| Advanced.GatherKeepsEveryLine | advanced_converter.py:64-105 | during the loop, the lines emitted so far followed by the pending lines are the non-blank lines read so far, in order |
| Advanced.UnitsKeepEveryLine | advanced_converter.py:64-110 | after the final flush, the emitted paragraphs and headers hold every non-blank line exactly once, in reading order, and no blank line |
| Advanced.GatherWellGrouped | advanced_converter.py:73-105 | every flushed paragraph is non-empty and takes no header-like line after its first; every header stands right after a flushed paragraph; the pending lines take no header-like line after their first |
| Advanced.UnitsWellGrouped | advanced_converter.py:64-110 | the same holds of all units once the remainder is flushed |
| Advanced.LineJoinsPending | advanced_converter.py:89-105 | after any prefix, a line with text joins the pending paragraph unless it is header-like with text already pending |
| Advanced.BlankLineFlushes | advanced_converter.py:73-79 | after any prefix, a whitespace-only line flushes the pending paragraph and leaves nothing pending |
| Advanced.BlankSplits | advanced_converter.py:73-79 | a whitespace-only line cuts the page in two: the units and nodes of `xs + [blank] + ys` are those of `xs` followed by those of `ys` |
| Advanced.FirstHeaderLineJoinsParagraph | advanced_converter.py:89-105 | after any prefix that leaves nothing pending (the top of the page or a blank line), a header-like line is not set apart: it opens the paragraph, and a following body line joins it |
| Advanced.HeaderAfterTextStandsAlone | advanced_converter.py:89-103 | after any prefix that leaves text pending, a header-like line flushes that text as one paragraph, stands alone after it and leaves nothing pending |
| Advanced.FlushPending | advanced_converter.py:73-79 | a flush, at a blank line or at the end of the page, appends the pending lines as one finalised paragraph, and nothing when none are pending |
| Advanced.FlushWithHeader | advanced_converter.py:89-103 | the header branch appends the pending paragraph and then the header node |
| Advanced.AddLine | advanced_converter.py:66-105 | one pass of the line loop appends the units that line completes and leaves the next pending texts |
| Advanced.GatherLines | advanced_converter.py:64-105 | the line loop appends the nodes of every unit it completes and leaves the texts still pending |
| Advanced.AddPageLines | advanced_converter.py:52-110 | the character branch appends the nodes of every unit, the final flush included |
| Advanced.FallbackLineNodes | advanced_converter.py:117-125 | a fallback line emits at most one node, a heading or a paragraph |
| Advanced.FallbackLineMeaning | advanced_converter.py:116-125 | a blank fallback line emits nothing, and every fallback node holds a suffix of its line less trailing whitespace |
| Advanced.FallbackPlainLine | advanced_converter.py:122-125 | a line that is neither bullet nor short upper-case becomes a plain paragraph of the stripped line |
| Advanced.AddFallbackLine | advanced_converter.py:117-125 | one pass of the fallback loop appends exactly that line's nodes |
| Advanced.AddFallbackText | advanced_converter.py:112-125 | the fallback appends the nodes of every line of the text, in order |
| Advanced.PageTextNodes | advanced_converter.py:51-125 | a page's text part holds only headings and paragraphs |
| Advanced.PageNodes | advanced_converter.py:35-125 | a page's nodes contain no page break |
| Advanced.ConvertSplitsIntoPages | advanced_converter.py:28-125 | the document cut at its page breaks gives one part per page, that page's nodes |
| Advanced.TablesBeforeText | advanced_converter.py:35-125 | every node before any of a page's tables is a table or a blank paragraph: all tables precede the page's text |
| Advanced.CharsOverrideText | advanced_converter.py:51-125 | with characters present, the plain-text extraction never affects the page |
| Advanced.ProcessPage | advanced_converter.py:35-125 | one page appends its tables, then its gathered lines or its fallback text |
| Advanced.ExtractWithTablesAndFormatting | advanced_converter.py:8-128 | the emitted document is the pages' nodes joined by page breaks |
| Compare.UltraBulletIsAdvancedBullet | ultra_converter.py:246 | on a stripped line, every line the ultra fallback takes for a bullet is also a bullet for `detect_bullet_point` |
| Compare.LetteredItemOnlyAdvanced | advanced_converter.py:152 | `"a. item"` is a bullet for the advanced test only |
| Compare.BlankLineDiffers | advanced_converter.py:117-119 | a whitespace-only line of page text gives a blank paragraph in the ultra fallback and nothing in the advanced one |
| Compare.UpperBulletPrecedence | advanced_converter.py:120-123 | short upper-case text starting with a glyph is a heading in the ultra fallback and a bullet in the advanced one |
| Compare.UpperBulletExample | ultra_converter.py:244-246 | such a line exists: `"- ABC"` |

## Left out

- The PDF reader (`pdfplumber.open`, `extract_tables`, `chars`, `extract_text`, `close`) is an input. A page's tables, characters and text are given as values.
- The word-processor writer (`Document()`, `save`) is the `Document` class. Table style names, page margins, `Inches`/`Pt` objects and python-docx run objects are not represented. A node records only the level, text, style, alignment, underline, indent flag, run size, bold and italic that the converters set.
- Progress and error output (`print`), the prompt (`input`), the `__main__` blocks and `install_requirements` are not modelled. They are I/O and a package installer.
- pdfDocx.py is not part of this model. It is a prompt-and-save script.
- Layout.Char: `round(y0, 2)` and `round(y0, 1)` are given as integer keys on each character (`yKey2`, `yKey1`). Float rounding that puts two characters on the same line is not modelled.
- Layout.Mean: the mean size is exact real arithmetic, not floating-point summation.
- Layout.MostCommon: `max(set(fonts), key=fonts.count)` breaks ties by set iteration order. The model only promises a font of maximal count; its own choice is the first such font in list order.
- Layout.WellShaped: a row longer than the first row would make python-docx index past the table's columns. This is a precondition of the page loops, not a behaviour.
- Layout.FillCells: the table is built as a value and appended once. The source adds the table first and then writes its cells in place. No other node is appended in between, so the resulting document is the same.
- Layout.Grid: cells are strings or missing. `str(cell_text)` of a non-string cell value is not modelled.
- Text.IsUpper: cased characters are the ASCII letters only. `isupper` and `lower` on other Unicode letters are not modelled.
- Patterns.IsWordBoundary: `\d`, `\w` and therefore `\b` use ASCII classes, not Python's Unicode ones. Whitespace is Python's full `isspace` set.
- Ultra.ParagraphSize: `int(font_size)` is modelled as the floor. The two agree because the value exceeds 12 (and 14 in the advanced header rule).
- Advanced.AddFormattedParagraph: the `chars` argument of `add_formatted_paragraph` is never read by the source, so it is not a parameter.
- A run's formatting is applied through a loop over the paragraph's runs. The model assumes the single run that a non-empty `add_paragraph(text)` creates.
