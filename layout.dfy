/**
 * The input side, abstracted from the PDF reader, and what both converters do
 * with it before classifying: characters grouped into lines by a vertical key,
 * lines ordered top-down, characters ordered left-to-right, per-line font
 * statistics, and table grids copied cell by cell.
 */
module Layout {
  import opened Options
  import opened Text
  import opened Doc

  // ---------------------------------------------------------------------------
  // Characters and pages

  /**
   * One positioned character. `yKey2` and `yKey1` stand for `round(y0, 2)` and
   * `round(y0, 1)` (scaled to integers); `size` and `fontname` may be missing.
   */
  datatype Char = Char(text: string, x0: real, yKey2: int, yKey1: int, size: Option<real>, fontname: Option<string>)

  /** `Hundredths` is the ultra converter's line quantisation, `Tenths` the advanced one's. */
  datatype Precision = Hundredths | Tenths

  function LineKey(c: Char, p: Precision): int {
    if p == Hundredths then c.yKey2 else c.yKey1
  }

  /** `char.get('size', 12)`. */
  function SizeOf(c: Char): real {
    if c.size.Some? then c.size.value else 12.0
  }

  /** `char.get('fontname', 'default')`. */
  function FontOf(c: Char): string {
    if c.fontname.Some? then c.fontname.value else "default"
  }

  /** A table as the reader extracts it: rows of cells, each a string or missing. */
  type Grid = seq<seq<Option<string>>>

  /** One page: its table grids, its characters, and its plain-text extraction. */
  datatype Page = Page(tables: seq<Grid>, chars: seq<Char>, text: Option<string>)

  /** No row is longer than the first (a longer one would index past the table's columns). */
  predicate WellShaped(g: Grid) {
    g == [] || forall i :: 0 <= i < |g| ==> |g[i]| <= |g[0]|
  }

  predicate PageTablesOk(p: Page) {
    forall t :: 0 <= t < |p.tables| ==> WellShaped(p.tables[t])
  }

  /** `if text:` on the plain-text extraction. */
  predicate HasText(p: Page) {
    p.text.Some? && p.text.value != ""
  }

  // ---------------------------------------------------------------------------
  // Grouping characters into lines

  /** The characters of line `k`, in the order the reader yields them. */
  function CharsOn(chars: seq<Char>, k: int, p: Precision): (r: seq<Char>)
    ensures forall c :: c in r <==> c in chars && LineKey(c, p) == k
  {
    if chars == [] then []
    else
      var last := chars[|chars| - 1];
      assert chars == chars[..|chars| - 1] + [last];
      CharsOn(chars[..|chars| - 1], k, p) + (if LineKey(last, p) == k then [last] else [])
  }

  predicate Distinct(s: seq<int>) {
    forall i, j :: 0 <= i < j < |s| ==> s[i] != s[j]
  }

  predicate StrictlyDescending(s: seq<int>) {
    forall i, j :: 0 <= i < j < |s| ==> s[i] > s[j]
  }

  /** The keys of a dict filled from `chars`, in insertion order: each line key once, in order of first appearance. */
  function LineKeys(chars: seq<Char>, p: Precision): (r: seq<int>)
    ensures Distinct(r)
    ensures forall k :: k in r <==> CharsOn(chars, k, p) != []
  {
    if chars == [] then []
    else
      var r := LineKeys(chars[..|chars| - 1], p);
      var k := LineKey(chars[|chars| - 1], p);
      if k in r then r else r + [k]
  }

  function InsertDescending(k: int, s: seq<int>): (r: seq<int>)
    requires StrictlyDescending(s) && k !in s
    ensures StrictlyDescending(r) && |r| == |s| + 1
    ensures forall x :: x in r <==> x == k || x in s
  {
    if s == [] || k > s[0] then [k] + s
    else
      var t := InsertDescending(k, s[1..]);
      BelowHead(s);
      assert k < s[0] by { assert s[0] in s; }
      AboveAll(s[0], t);
      [s[0]] + t
  }

  /** Every later element of a strictly descending sequence is below its head. */
  lemma BelowHead(s: seq<int>)
    requires StrictlyDescending(s) && s != []
    ensures s == [s[0]] + s[1..]
    ensures forall x :: x in s[1..] ==> x < s[0]
  {
  }

  /** A key above every element of a strictly descending sequence can head it. */
  lemma AboveAll(m: int, t: seq<int>)
    requires StrictlyDescending(t) && forall x :: x in t ==> x < m
    ensures StrictlyDescending([m] + t)
  {
    assert forall j :: 0 <= j < |t| ==> t[j] in t;
  }

  /** `sorted(keys, reverse=True)` of distinct keys. */
  function SortDescending(keys: seq<int>): (r: seq<int>)
    requires Distinct(keys)
    ensures StrictlyDescending(r) && |r| == |keys|
    ensures forall x :: x in r <==> x in keys
  {
    if keys == [] then []
    else InsertDescending(keys[0], SortDescending(keys[1..]))
  }

  /** The line keys top-down: one per distinct key, strictly descending. */
  function SortedLineKeys(chars: seq<Char>, p: Precision): (r: seq<int>)
    ensures StrictlyDescending(r)
    ensures forall k :: k in r <==> CharsOn(chars, k, p) != []
  {
    SortDescending(LineKeys(chars, p))
  }

  /** The lines' characters one line after another. */
  function LinesConcat(chars: seq<Char>, ks: seq<int>, p: Precision): seq<Char> {
    if ks == [] then [] else LinesConcat(chars, ks[..|ks| - 1], p) + CharsOn(chars, ks[|ks| - 1], p)
  }

  /** Every character lands on exactly one line: the lines, together, are the page's characters. */
  lemma LinesPartitionChars(chars: seq<Char>, p: Precision)
    ensures multiset(LinesConcat(chars, SortedLineKeys(chars, p), p)) == multiset(chars)
  {
    var ks := SortedLineKeys(chars, p);
    forall i | 0 <= i < |chars|
      ensures LineKey(chars[i], p) in ks
    {
      assert chars[i] in CharsOn(chars, LineKey(chars[i], p), p);
    }
    PartitionBy(chars, ks, p);
  }

  lemma {:induction false} PartitionBy(chars: seq<Char>, ks: seq<int>, p: Precision)
    requires Distinct(ks)
    requires forall i :: 0 <= i < |chars| ==> LineKey(chars[i], p) in ks
    ensures multiset(LinesConcat(chars, ks, p)) == multiset(chars)
  {
    if chars == [] {
      LinesConcatOfNothing(ks, p);
    } else {
      var init, c := chars[..|chars| - 1], chars[|chars| - 1];
      assert init + [c] == chars;
      PartitionBy(init, ks, p);
      LinesConcatAddChar(init, c, ks, p);
    }
  }

  lemma {:induction false} LinesConcatOfNothing(ks: seq<int>, p: Precision)
    ensures LinesConcat([], ks, p) == []
  {
    if ks != [] {
      LinesConcatOfNothing(ks[..|ks| - 1], p);
    }
  }

  lemma {:induction false} LinesConcatAddChar(init: seq<Char>, c: Char, ks: seq<int>, p: Precision)
    requires Distinct(ks)
    ensures multiset(LinesConcat(init + [c], ks, p))
         == multiset(LinesConcat(init, ks, p)) + (if LineKey(c, p) in ks then multiset{c} else multiset{})
  {
    if ks != [] {
      var ks', k := ks[..|ks| - 1], ks[|ks| - 1];
      assert Distinct(ks');
      assert k !in ks';
      LinesConcatAddChar(init, c, ks', p);
      assert (init + [c])[..|init|] == init;
      assert LineKey(c, p) in ks <==> LineKey(c, p) in ks' || LineKey(c, p) == k;
    }
  }

  // ---------------------------------------------------------------------------
  // Ordering characters within a line

  predicate SortedByX(s: seq<Char>) {
    forall i, j :: 0 <= i < j < |s| ==> s[i].x0 <= s[j].x0
  }

  /** Inserts `c` before the first character that is not left of it, so that equal positions keep their order. */
  function InsertByX(c: Char, s: seq<Char>): (r: seq<Char>)
    ensures multiset(r) == multiset(s) + multiset{c}
  {
    if s == [] || c.x0 <= s[0].x0 then [c] + s
    else
      assert s == [s[0]] + s[1..];
      [s[0]] + InsertByX(c, s[1..])
  }

  predicate NotLeftOf(s: seq<Char>, m: real) {
    forall i :: 0 <= i < |s| ==> m <= s[i].x0
  }

  lemma {:induction false} InsertByXNotLeftOf(c: Char, s: seq<Char>, m: real)
    requires NotLeftOf(s, m) && m <= c.x0
    ensures NotLeftOf(InsertByX(c, s), m)
  {
    if s != [] && c.x0 > s[0].x0 {
      InsertByXNotLeftOf(c, s[1..], m);
    }
  }

  lemma {:induction false} InsertByXSorted(c: Char, s: seq<Char>)
    requires SortedByX(s)
    ensures SortedByX(InsertByX(c, s))
  {
    if s != [] && c.x0 > s[0].x0 {
      InsertByXSorted(c, s[1..]);
      InsertByXNotLeftOf(c, s[1..], s[0].x0);
    }
  }

  /** `sorted(chars, key=lambda c: c['x0'])`: ordered left to right, a permutation of the line. */
  function SortByX(cs: seq<Char>): (r: seq<Char>)
    ensures SortedByX(r)
    ensures multiset(r) == multiset(cs) && |r| == |cs|
  {
    if cs == [] then []
    else
      assert cs == [cs[0]] + cs[1..];
      InsertByXSorted(cs[0], SortByX(cs[1..]));
      InsertByX(cs[0], SortByX(cs[1..]))
  }

  /** The characters of `s` at horizontal position `v`, in order. */
  function AtX(s: seq<Char>, v: real): seq<Char> {
    if s == [] then [] else (if s[0].x0 == v then [s[0]] else []) + AtX(s[1..], v)
  }

  lemma {:induction false} InsertByXStable(c: Char, s: seq<Char>, v: real)
    ensures AtX(InsertByX(c, s), v) == (if c.x0 == v then [c] else []) + AtX(s, v)
  {
    if s != [] && c.x0 > s[0].x0 {
      var t := InsertByX(c, s[1..]);
      InsertByXStable(c, s[1..], v);
      assert ([s[0]] + t)[1..] == t;
      var head := if s[0].x0 == v then [s[0]] else [];
      var mid := if c.x0 == v then [c] else [];
      assert AtX(InsertByX(c, s), v) == head + (mid + AtX(s[1..], v));
      assert AtX(s, v) == head + AtX(s[1..], v);
      assert head == [] || mid == [];
    }
  }

  /** The sort is stable: characters at the same position keep the reader's order. */
  lemma {:induction false} SortByXStable(cs: seq<Char>, v: real)
    ensures AtX(SortByX(cs), v) == AtX(cs, v)
  {
    if cs != [] {
      SortByXStable(cs[1..], v);
      InsertByXStable(cs[0], SortByX(cs[1..]), v);
    }
  }

  // ---------------------------------------------------------------------------
  // Per-line text and statistics

  /** `''.join(char['text'] for char in cs)`. */
  function LineText(cs: seq<Char>): string {
    if cs == [] then "" else LineText(cs[..|cs| - 1]) + cs[|cs| - 1].text
  }

  function Sizes(cs: seq<Char>): (r: seq<real>)
    ensures |r| == |cs|
  {
    if cs == [] then [] else Sizes(cs[..|cs| - 1]) + [SizeOf(cs[|cs| - 1])]
  }

  function Fonts(cs: seq<Char>): (r: seq<string>)
    ensures |r| == |cs|
  {
    if cs == [] then [] else Fonts(cs[..|cs| - 1]) + [FontOf(cs[|cs| - 1])]
  }

  function XPositions(cs: seq<Char>): (r: seq<real>)
    ensures |r| == |cs|
  {
    if cs == [] then [] else XPositions(cs[..|cs| - 1]) + [cs[|cs| - 1].x0]
  }

  function Sum(xs: seq<real>): real {
    if xs == [] then 0.0 else Sum(xs[..|xs| - 1]) + xs[|xs| - 1]
  }

  function Mean(xs: seq<real>): real
    requires xs != []
  {
    Sum(xs) / (|xs| as real)
  }

  lemma {:induction false} SumAppend(xs: seq<real>, ys: seq<real>)
    ensures Sum(xs + ys) == Sum(xs) + Sum(ys)
    decreases |ys|
  {
    if ys == [] {
      assert xs + ys == xs;
    } else {
      var init := ys[..|ys| - 1];
      assert (xs + ys)[..|xs + ys| - 1] == xs + init;
      SumAppend(xs, init);
    }
  }

  lemma {:induction false} SizesAppend(a: seq<Char>, b: seq<Char>)
    ensures Sizes(a + b) == Sizes(a) + Sizes(b)
    decreases |b|
  {
    if b == [] {
      assert a + b == a;
    } else {
      var init := b[..|b| - 1];
      assert (a + b)[..|a + b| - 1] == a + init;
      SizesAppend(a, init);
    }
  }

  lemma SumSizesCons(c: Char, s: seq<Char>)
    ensures Sum(Sizes([c] + s)) == SizeOf(c) + Sum(Sizes(s))
  {
    SizesAppend([c], s);
    assert Sizes([c]) == [SizeOf(c)] by {
      assert [c][..0] == [];
    }
    SumAppend([SizeOf(c)], Sizes(s));
    assert [SizeOf(c)][..0] == [];
  }

  lemma {:induction false} InsertByXSum(c: Char, s: seq<Char>)
    ensures Sum(Sizes(InsertByX(c, s))) == SizeOf(c) + Sum(Sizes(s))
    decreases |s|
  {
    if s == [] || c.x0 <= s[0].x0 {
      SumSizesCons(c, s);
    } else {
      assert s == [s[0]] + s[1..];
      InsertByXSum(c, s[1..]);
      SumSizesCons(s[0], InsertByX(c, s[1..]));
      SumSizesCons(s[0], s[1..]);
    }
  }

  /** Sorting a line left to right does not change its mean font size. */
  lemma {:induction false} SortByXKeepsMean(cs: seq<Char>)
    requires cs != []
    ensures Mean(Sizes(SortByX(cs))) == Mean(Sizes(cs))
  {
    SortByXSum(cs);
  }

  lemma {:induction false} SortByXSum(cs: seq<Char>)
    ensures Sum(Sizes(SortByX(cs))) == Sum(Sizes(cs))
    decreases |cs|
  {
    if cs != [] {
      assert cs == [cs[0]] + cs[1..];
      SortByXSum(cs[1..]);
      InsertByXSum(cs[0], SortByX(cs[1..]));
      SumSizesCons(cs[0], cs[1..]);
    }
  }

  /** `min(xs)`. */
  function MinOf(xs: seq<real>): (r: real)
    requires xs != []
    ensures r in xs
    ensures forall i :: 0 <= i < |xs| ==> r <= xs[i]
  {
    if |xs| == 1 then xs[0]
    else
      var m := MinOf(xs[..|xs| - 1]);
      assert forall i :: 0 <= i < |xs| - 1 ==> xs[..|xs| - 1][i] == xs[i];
      if xs[|xs| - 1] < m then xs[|xs| - 1] else m
  }

  /** The candidate of `cands` that occurs most often in `names` (the first such one). */
  function MostCommonAmong(names: seq<string>, cands: seq<string>): (r: string)
    requires cands != []
    ensures r in cands
    ensures forall i :: 0 <= i < |cands| ==> multiset(names)[cands[i]] <= multiset(names)[r]
  {
    if |cands| == 1 then cands[0]
    else
      var best := MostCommonAmong(names, cands[..|cands| - 1]);
      var last := cands[|cands| - 1];
      assert forall i :: 0 <= i < |cands| - 1 ==> cands[..|cands| - 1][i] == cands[i];
      if multiset(names)[last] > multiset(names)[best] then last else best
  }

  /** `max(set(names), key=names.count)`: a name of maximal count. */
  function MostCommon(names: seq<string>): (r: string)
    requires names != []
    ensures r in names
    ensures forall n :: n in names ==> multiset(names)[n] <= multiset(names)[r]
  {
    MostCommonAmong(names, names)
  }

  // ---------------------------------------------------------------------------
  // Tables

  /** `if cell_text:`. */
  predicate Truthy(cell: Option<string>) {
    cell.Some? && cell.value != ""
  }

  /** What cell (i, j) of the emitted table holds: the stripped text of a truthy source cell, otherwise nothing. */
  function CellText(g: Grid, i: nat, j: nat): Option<string>
    requires i < |g|
  {
    if j < |g[i]| && Truthy(g[i][j]) then Some(Strip(g[i][j].value)) else None
  }

  function CellsOf(g: Grid): (r: seq<seq<Option<string>>>)
    requires g != []
    ensures |r| == |g| && forall i :: 0 <= i < |r| ==> |r[i]| == |g[0]|
  {
    seq(|g|, i requires 0 <= i < |g| => seq(|g[0]|, j requires 0 <= j < |g[0]| => CellText(g, i, j)))
  }

  /**
   * Fills a `len(g)` by `len(g[0])` table: every truthy cell gets its stripped
   * text, every other cell stays untouched.
   */
  method FillCells(g: Grid) returns (cells: seq<seq<Option<string>>>)
    requires g != [] && WellShaped(g)
    ensures |cells| == |g|
    ensures forall i :: 0 <= i < |g| ==> |cells[i]| == |g[0]|
    ensures forall i, j :: 0 <= i < |g| && 0 <= j < |g[0]| ==> cells[i][j] == CellText(g, i, j)
    ensures cells == CellsOf(g)
  {
    var cols := |g[0]|;
    cells := seq(|g|, _ => seq(cols, _ => None));
    for i := 0 to |g|
      invariant |cells| == |g|
      invariant forall r :: 0 <= r < |g| ==> |cells[r]| == cols
      invariant forall r, j :: 0 <= r < i && 0 <= j < cols ==> cells[r][j] == CellText(g, r, j)
      invariant forall r, j :: i <= r < |g| && 0 <= j < cols ==> cells[r][j] == None
    {
      for j := 0 to |g[i]|
        invariant |cells| == |g|
        invariant forall r :: 0 <= r < |g| ==> |cells[r]| == cols
        invariant forall r, j' :: 0 <= r < i && 0 <= j' < cols ==> cells[r][j'] == CellText(g, r, j')
        invariant forall r, j' :: i < r < |g| && 0 <= j' < cols ==> cells[r][j'] == None
        invariant forall j' :: 0 <= j' < j ==> cells[i][j'] == CellText(g, i, j')
        invariant forall j' :: j <= j' < cols ==> cells[i][j'] == None
      {
        if Truthy(g[i][j]) {
          cells := cells[i := cells[i][j := Some(Strip(g[i][j].value))]];
        }
      }
    }
    assert forall i :: 0 <= i < |g| ==> cells[i] == CellsOf(g)[i];
  }

  function TableNode(g: Grid, cellSize: Option<int>): Node
    requires g != []
  {
    Table(|g|, |g[0]|, CellsOf(g), cellSize)
  }

  /** A table node of at least one row whose cell matrix is `rows` by `cols`, with the given cell size. */
  predicate TableShaped(n: Node, cellSize: Option<int>) {
    && n.Table? && n.rows >= 1 && n.cellSize == cellSize
    && |n.cells| == n.rows && forall i :: 0 <= i < |n.cells| ==> |n.cells[i]| == n.cols
  }

  /** Per non-empty grid, in order: its table, then a blank paragraph; so tables and blanks alternate. */
  function TableNodes(tables: seq<Grid>, cellSize: Option<int>): (r: seq<Node>)
    ensures |r| % 2 == 0
    ensures forall i :: 0 <= i < |r| ==> if i % 2 == 0 then TableShaped(r[i], cellSize) else r[i] == Blank
  {
    if tables == [] then []
    else
      var g := tables[|tables| - 1];
      TableNodes(tables[..|tables| - 1], cellSize) + (if g != [] then [TableNode(g, cellSize), Blank] else [])
  }

  /** One more grid adds its table and a blank paragraph when it is non-empty, and nothing otherwise. */
  lemma TableNodesSnoc(tables: seq<Grid>, t: int, cellSize: Option<int>)
    requires 0 <= t < |tables|
    ensures TableNodes(tables[..t + 1], cellSize)
         == TableNodes(tables[..t], cellSize) + (if tables[t] != [] then [TableNode(tables[t], cellSize), Blank] else [])
  {
    assert tables[..t + 1][..t] == tables[..t];
  }

  /** The table step of a page: each non-empty grid becomes a filled table followed by a blank paragraph. */
  method AddTables(doc: Document, tables: seq<Grid>, cellSize: Option<int>)
    requires forall t :: 0 <= t < |tables| ==> WellShaped(tables[t])
    modifies doc
    ensures doc.body == old(doc.body) + TableNodes(tables, cellSize)
  {
    for t := 0 to |tables|
      invariant doc.body == old(doc.body) + TableNodes(tables[..t], cellSize)
    {
      var g := tables[t];
      TableNodesSnoc(tables, t, cellSize);
      if g != [] {
        var cells := FillCells(g);
        ghost var before := doc.body;
        doc.Append(Table(|g|, |g[0]|, cells, cellSize));
        doc.Append(Blank);
        assert doc.body == before + [TableNode(g, cellSize), Blank];
        AppendAssoc(old(doc.body), TableNodes(tables[..t], cellSize), [TableNode(g, cellSize), Blank]);
      }
    }
    assert tables[..|tables|] == tables;
  }
}
