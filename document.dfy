/**
 * The output side, abstracted from the word-processor library: a document is
 * the sequence of nodes appended to its body (headings, paragraphs, tables and
 * page breaks), each recording only the formatting the converters set.
 */
module Doc {
  import opened Options

  datatype Style = Normal | ListBullet

  /** `Unset` is a paragraph whose alignment the converter leaves alone. */
  datatype Align = Unset | Left | Center

  /** Formatting of a paragraph's text run: point size (whole points), bold, italic. */
  datatype RunFormat = RunFormat(size: Option<int>, bold: bool, italic: bool)

  datatype Node =
    | Heading(level: int, text: string, align: Align, underline: bool)
      /** `leftIndent` is the fixed 0.5-inch left indent. */
    | Para(text: string, style: Style, align: Align, leftIndent: bool, run: RunFormat)
      /** `cells[i][j]` is the text written into cell (i, j), `None` for a cell left untouched;
          `cellSize` is the point size set on the runs of written cells. */
    | Table(rows: nat, cols: nat, cells: seq<seq<Option<string>>>, cellSize: Option<int>)
    | PageBreak

  const Plain: RunFormat := RunFormat(None, false, false)

  /** `doc.add_paragraph()`: an empty paragraph. */
  const Blank: Node := Para("", Normal, Unset, false, Plain)

  /** `doc.add_paragraph(text)`. */
  function PlainPara(text: string): Node {
    Para(text, Normal, Unset, false, Plain)
  }

  /** The text a heading or paragraph shows; none for a table or a page break. */
  function NodeText(n: Node): string {
    match n
    case Heading(_, text, _, _) => text
    case Para(text, _, _, _, _) => text
    case _ => ""
  }

  /** A "List Bullet" paragraph of the cleaned text, or nothing when the cleaning left nothing. */
  function ListItem(clean: string): (r: seq<Node>)
    ensures |r| <= 1
    ensures r == [] <==> clean == []
    ensures forall n :: n in r ==> n.Para? && n.style == ListBullet && n.text == clean
  {
    if clean == [] then [] else [Para(clean, ListBullet, Unset, false, Plain)]
  }

  predicate NoPageBreak(ns: seq<Node>) {
    forall i :: 0 <= i < |ns| ==> ns[i] != PageBreak
  }

  /** Headings and paragraphs only: what the text of a page is made of. */
  predicate TextOnly(ns: seq<Node>) {
    forall i :: 0 <= i < |ns| ==> ns[i].Heading? || ns[i].Para?
  }

  /** `f(x)` for each `x` of `xs`, in order. */
  function MapSeq<T, U>(xs: seq<T>, f: T -> U): (r: seq<U>)
    ensures |r| == |xs|
    ensures forall i :: 0 <= i < |xs| ==> r[i] == f(xs[i])
  {
    if xs == [] then []
    else
      var init := xs[..|xs| - 1];
      assert forall i :: 0 <= i < |init| ==> init[i] == xs[i];
      MapSeq(init, f) + [f(xs[|xs| - 1])]
  }

  /** A prefix one longer is the prefix with the next element appended. */
  lemma TakeSnoc<T>(s: seq<T>, i: int)
    requires 0 <= i < |s|
    ensures s[..i + 1] == s[..i] + [s[i]]
  {
  }

  lemma AppendAssoc<T>(a: seq<T>, b: seq<T>, c: seq<T>)
    ensures (a + b) + c == a + (b + c)
  {
  }

  lemma MapSeqSnoc<T, U>(xs: seq<T>, x: T, f: T -> U)
    ensures MapSeq(xs + [x], f) == MapSeq(xs, f) + [f(x)]
  {
    assert (xs + [x])[..|xs|] == xs;
  }

  /** The nodes of `f(x)` for each `x` of `xs`, in order. */
  function ConcatMap<T>(xs: seq<T>, f: T -> seq<Node>): seq<Node> {
    if xs == [] then [] else ConcatMap(xs[..|xs| - 1], f) + f(xs[|xs| - 1])
  }

  lemma ConcatMapSnoc<T>(xs: seq<T>, x: T, f: T -> seq<Node>)
    ensures ConcatMap(xs + [x], f) == ConcatMap(xs, f) + f(x)
  {
    assert (xs + [x])[..|xs|] == xs;
  }

  lemma {:induction false} ConcatMapAppend<T>(xs: seq<T>, ys: seq<T>, f: T -> seq<Node>)
    ensures ConcatMap(xs + ys, f) == ConcatMap(xs, f) + ConcatMap(ys, f)
    decreases |ys|
  {
    if ys == [] {
      assert xs + ys == xs;
    } else {
      var init := ys[..|ys| - 1];
      var y := ys[|ys| - 1];
      var zs := xs + init;
      assert xs + ys == zs + [y];
      ConcatMapAppend(xs, init, f);
      ConcatMapSnoc(zs, y, f);
      AppendAssoc(ConcatMap(xs, f), ConcatMap(init, f), f(y));
    }
  }

  lemma {:induction false} ConcatMapTextOnly<T>(xs: seq<T>, f: T -> seq<Node>)
    requires forall i :: 0 <= i < |xs| ==> TextOnly(f(xs[i]))
    ensures TextOnly(ConcatMap(xs, f))
  {
    if xs != [] {
      ConcatMapTextOnly(xs[..|xs| - 1], f);
    }
  }

  // ---------------------------------------------------------------------------
  // Pages

  /** The pages' nodes, with a page break before every page but the first. */
  function Paginate(pages: seq<seq<Node>>): seq<Node> {
    if pages == [] then []
    else Paginate(pages[..|pages| - 1]) + (if |pages| > 1 then [PageBreak] else []) + pages[|pages| - 1]
  }

  lemma PaginateSnoc(pages: seq<seq<Node>>, page: seq<Node>)
    ensures Paginate(pages + [page]) == Paginate(pages) + (if pages != [] then [PageBreak] else []) + page
  {
    assert (pages + [page])[..|pages|] == pages;
  }

  /** Cuts a node sequence at its page breaks. */
  function SplitAtBreaks(ns: seq<Node>): (r: seq<seq<Node>>)
    ensures |r| >= 1
  {
    if ns == [] then [[]]
    else
      var r := SplitAtBreaks(ns[..|ns| - 1]);
      var n := ns[|ns| - 1];
      if n == PageBreak then r + [[]] else r[..|r| - 1] + [r[|r| - 1] + [n]]
  }

  /** A node other than a page break extends the last piece. */
  lemma SplitSnocNoBreak(x: seq<Node>, n: Node)
    requires n != PageBreak
    ensures var r := SplitAtBreaks(x);
      SplitAtBreaks(x + [n]) == r[..|r| - 1] + [r[|r| - 1] + [n]]
  {
    assert (x + [n])[..|x|] == x;
  }

  /** Nodes without a page break extend the last piece. */
  lemma {:induction false} SplitAppendNoBreak(x: seq<Node>, s: seq<Node>)
    requires NoPageBreak(s)
    ensures var r := SplitAtBreaks(x);
      SplitAtBreaks(x + s) == r[..|r| - 1] + [r[|r| - 1] + s]
    decreases |s|
  {
    var r := SplitAtBreaks(x);
    if s == [] {
      assert x + s == x;
      assert r[|r| - 1] + s == r[|r| - 1];
      assert r[..|r| - 1] + [r[|r| - 1]] == r;
    } else {
      var s' := s[..|s| - 1];
      var n := s[|s| - 1];
      assert s == s' + [n];
      assert NoPageBreak(s');
      SplitAppendNoBreak(x, s');
      assert x + s == (x + s') + [n];
      SplitSnocNoBreak(x + s', n);
      assert (r[|r| - 1] + s') + [n] == r[|r| - 1] + s;
    }
  }

  /** Cutting a paginated document at its breaks gives back its pages. */
  lemma {:induction false} PaginateRoundTrip(pages: seq<seq<Node>>)
    requires |pages| >= 1
    requires forall i :: 0 <= i < |pages| ==> NoPageBreak(pages[i])
    ensures SplitAtBreaks(Paginate(pages)) == pages
  {
    var init, last := pages[..|pages| - 1], pages[|pages| - 1];
    if |pages| == 1 {
      SplitAppendNoBreak([], last);
      assert [] + last == last;
    } else {
      PaginateRoundTrip(init);
      var x := Paginate(init) + [PageBreak];
      assert x[..|x| - 1] == Paginate(init);
      assert SplitAtBreaks(x) == init + [[]];
      assert Paginate(pages) == x + last;
      SplitAppendNoBreak(x, last);
      assert (init + [[]])[..|init|] == init;
      assert [] + last == last;
      assert init + [last] == pages;
    }
  }

  // ---------------------------------------------------------------------------
  // The sink

  /** The document being written: `add_paragraph`, `add_heading`, `add_table` and `add_page_break` each append one node. */
  class Document {
    var body: seq<Node>

    constructor ()
      ensures body == []
    {
      body := [];
    }

    method Append(n: Node)
      modifies this
      ensures body == old(body) + [n]
    {
      body := body + [n];
    }
  }
}
