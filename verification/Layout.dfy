/** Terminal output as line layout: from a cleared screen, printable text and line breaks
    come out as the paragraphs cut into rows of the screen's width. */
module Layout {
  import opened Terminal
  import opened TerminalProofs

  datatype Token = Glyph(c: char) | Break

  type Row = seq<char>

  // ---- the layout ----

  /** The text between line breaks. */
  function Paragraphs(text: seq<Token>): (r: seq<Row>)
    ensures |r| >= 1
  {
    if text == [] then [[]]
    else
      var before := Paragraphs(text[..|text| - 1]);
      match text[|text| - 1]
      case Glyph(c) => before[..|before| - 1] + [before[|before| - 1] + [c]]
      case Break => before + [[]]
  }

  /** A paragraph in rows of `w` characters; only an empty one has an empty row. */
  function CutRows(p: Row, w: nat): (r: seq<Row>)
    requires w >= 1
    ensures |r| >= 1
  {
    if |p| <= w then [p] else [p[..w]] + CutRows(p[w..], w)
  }

  function LayoutRows(paragraphs: seq<Row>, w: nat): seq<Row>
    requires w >= 1
  {
    if paragraphs == [] then []
    else LayoutRows(paragraphs[..|paragraphs| - 1], w) + CutRows(paragraphs[|paragraphs| - 1], w)
  }

  /** A row of text on the screen: its characters in `attrs`, then default blanks. */
  function RowCells(row: Row, attrs: Attrs, cols: nat): (r: Cells)
    requires |row| <= cols
    ensures |r| == cols
    ensures forall i :: 0 <= i < cols ==> r[i] == if i < |row| then Cell(row[i], attrs) else BLANK
  {
    seq(cols, i requires 0 <= i < cols => if i < |row| then Cell(row[i], attrs) else BLANK)
  }

  // ---- one more character ----

  /** The layout with one more character: after a full row it starts a new one. */
  function Extend(rows: seq<Row>, c: char, w: nat): seq<Row>
    requires rows != []
  {
    var last := rows[|rows| - 1];
    if |last| >= w then rows + [[c]] else rows[..|rows| - 1] + [last + [c]]
  }

  lemma ExtendAfter(a: seq<Row>, b: seq<Row>, c: char, w: nat)
    requires b != []
    ensures Extend(a + b, c, w) == a + Extend(b, c, w)
  {
    assert (a + b)[..|a + b| - 1] == a + b[..|b| - 1];
  }

  lemma {:induction false} CutExtend(p: Row, c: char, w: nat)
    requires w >= 1
    ensures CutRows(p + [c], w) == Extend(CutRows(p, w), c, w)
    decreases |p|
  {
    if |p| < w {
      assert [p][..0] == [];
    } else if |p| == w {
      assert (p + [c])[..w] == p && (p + [c])[w..] == [c];
    } else {
      CutExtend(p[w..], c, w);
      assert (p + [c])[..w] == p[..w] && (p + [c])[w..] == p[w..] + [c];
      ExtendAfter([p[..w]], CutRows(p[w..], w), c, w);
    }
  }

  lemma LayoutSnoc(paragraphs: seq<Row>, p: Row, w: nat)
    requires w >= 1
    ensures LayoutRows(paragraphs + [p], w) == LayoutRows(paragraphs, w) + CutRows(p, w)
  {
    assert (paragraphs + [p])[..|paragraphs + [p]| - 1] == paragraphs;
  }

  function TextRows(text: seq<Token>, w: nat): seq<Row>
    requires w >= 1
  {
    LayoutRows(Paragraphs(text), w)
  }

  lemma TextRowsNext(text: seq<Token>, w: nat)
    requires w >= 1 && text != []
    ensures TextRows(text[..|text| - 1], w) != []
    ensures TextRows(text, w) ==
              match text[|text| - 1]
              case Glyph(c) => Extend(TextRows(text[..|text| - 1], w), c, w)
              case Break => TextRows(text[..|text| - 1], w) + [[]]
  {
    var ps := Paragraphs(text[..|text| - 1]);
    var front, last := ps[..|ps| - 1], ps[|ps| - 1];
    assert ps == front + [last];
    LayoutSnoc(front, last, w);
    match text[|text| - 1]
    case Glyph(c) =>
      LayoutSnoc(front, last + [c], w);
      CutExtend(last, c, w);
      ExtendAfter(LayoutRows(front, w), CutRows(last, w), c, w);
    case Break =>
      LayoutSnoc(ps, [], w);
  }

  // ---- the screen ----

  /** The screen holds the last of `rows` with the cursor where they end; `off` has the
      cells of the ones scrolled off. */
  ghost predicate Laid(m: Screen, off: seq<Cells>, rows: seq<Row>, attrs: Attrs) {
    && Valid(m) && m.viewport == 0 && m.attrs == attrs
    && |off| + m.y + 1 == |rows|
    && (off != [] ==> m.y == m.rows - 1)
    && m.x == |rows[|rows| - 1]|
    && (forall i :: 0 <= i < |rows| ==> |rows[i]| <= m.cols)
    && (forall i :: 0 <= i < |off| ==> off[i] == RowCells(rows[i], attrs, m.cols))
    && (forall i :: |off| <= i < |rows| ==> m.lines[i - |off|].cells == RowCells(rows[i], attrs, m.cols))
    && (forall j :: m.y < j < m.rows ==> m.lines[j].cells == BlankCells(m.cols))
  }

  /** The row, if any, that moving to the next row scrolls off. */
  function OffNext(m: Screen): seq<Cells>
    requires Valid(m)
  {
    if m.y + 1 == m.rows then [m.lines[0].cells] else []
  }

  function NextRow(m: Screen): Screen
    requires Valid(m)
  {
    ScrollIfPast(m.(x := 0, y := m.y + 1))
  }

  lemma NextRowDown(m: Screen, off: seq<Cells>, rows: seq<Row>, attrs: Attrs)
    requires Laid(m, off, rows, attrs) && m.y + 1 < m.rows
    ensures Laid(m.(x := 0, y := m.y + 1), off, rows + [[]], attrs)
  {
    var m', rows' := m.(x := 0, y := m.y + 1), rows + [[]];
    assert RowCells([], attrs, m.cols) == BlankCells(m.cols);
  }

  /** Scrolling moves every row up one, a blank one following. */
  lemma ScrolledLines(m: Screen)
    requires Valid(m) && m.y + 1 == m.rows
    ensures Valid(NextRow(m)) && NextRow(m).rows == m.rows && NextRow(m).cols == m.cols
    ensures NextRow(m).y == m.y && NextRow(m).x == 0 && NextRow(m).attrs == m.attrs
    ensures NextRow(m).viewport == m.viewport
    ensures forall i :: 0 <= i < m.rows ==>
              NextRow(m).lines[i] == if i + 1 < m.rows then m.lines[i + 1] else BlankLine(m.cols)
  {
    ScrollIfPastValid(m.(x := 0, y := m.y + 1));
  }

  lemma NextRowScrolls(m: Screen, off: seq<Cells>, rows: seq<Row>, attrs: Attrs)
    requires Laid(m, off, rows, attrs) && m.y + 1 == m.rows
    ensures Laid(NextRow(m), off + [m.lines[0].cells], rows + [[]], attrs)
  {
    var m', off', rows' := NextRow(m), off + [m.lines[0].cells], rows + [[]];
    ScrolledLines(m);
    assert RowCells([], attrs, m.cols) == BlankCells(m.cols);
    forall i | |off'| <= i < |rows'|
      ensures m'.lines[i - |off'|].cells == RowCells(rows'[i], attrs, m.cols)
    {
      if i < |rows| {
        assert m'.lines[i - |off'|] == m.lines[i - |off|];
      }
    }
  }

  lemma NextRowLaid(m: Screen, off: seq<Cells>, rows: seq<Row>, attrs: Attrs)
    requires Laid(m, off, rows, attrs)
    ensures Laid(NextRow(m), off + OffNext(m), rows + [[]], attrs)
  {
    assert off + [] == off;
    if m.y + 1 == m.rows {
      NextRowScrolls(m, off, rows, attrs);
    } else {
      NextRowDown(m, off, rows, attrs);
    }
  }

  lemma PutLaid(m: Screen, off: seq<Cells>, rows: seq<Row>, attrs: Attrs, c: char)
    requires Laid(m, off, rows, attrs) && m.x < m.cols
    ensures Laid(PutCell(m, c), off, Extend(rows, c, m.cols), attrs)
  {
    var last := rows[|rows| - 1];
    var m' := PutCell(m, c);
    var rows' := Extend(rows, c, m.cols);
    PutCellValid(m, c);
    assert m'.lines[m.y].cells == RowCells(last + [c], attrs, m.cols);
  }

  lemma PrintLaid(m: Screen, off: seq<Cells>, rows: seq<Row>, attrs: Attrs, c: char)
    requires Laid(m, off, rows, attrs)
    ensures Laid(StepPrint(m, c), if m.x == m.cols then off + OffNext(m) else off, Extend(rows, c, m.cols), attrs)
  {
    assert ResetView(m) == m && ScrollIfPast(m) == m;
    if m.x == m.cols {
      NextRowLaid(m, off, rows, attrs);
      PutLaid(NextRow(m), off + OffNext(m), rows + [[]], attrs, c);
      assert (rows + [[]])[..|rows|] == rows && [] + [c] == [c];
    } else {
      PutLaid(m, off, rows, attrs, c);
    }
  }

  /** Printing a character, or a carriage return and a line feed. */
  function FeedOne(m: Screen, t: Token): Screen
    requires Valid(m)
  {
    match t
    case Glyph(c) => StepPrint(m, c)
    case Break =>
      ExecuteValid(m, 13);
      StepExecute(StepExecute(m, 13), 10)
  }

  /** What feeding one token scrolls off row 0. */
  function OffOne(m: Screen, t: Token): seq<Cells>
    requires Valid(m)
  {
    match t
    case Glyph(c) => if m.x >= m.cols then OffNext(m) else []
    case Break => OffNext(m)
  }

  lemma FeedOneValid(m: Screen, t: Token)
    requires Valid(m)
    ensures Valid(FeedOne(m, t)) && FeedOne(m, t).rows == m.rows && FeedOne(m, t).cols == m.cols
  {
    match t
    case Glyph(c) => PrintValid(m, c);
    case Break =>
      ExecuteValid(m, 13);
      ExecuteValid(StepExecute(m, 13), 10);
  }

  lemma FeedOneLaid(m: Screen, off: seq<Cells>, rows: seq<Row>, attrs: Attrs, t: Token)
    requires Laid(m, off, rows, attrs)
    ensures Laid(FeedOne(m, t), off + OffOne(m, t),
                 match t case Glyph(c) => Extend(rows, c, m.cols) case Break => rows + [[]], attrs)
  {
    assert off + [] == off;
    match t
    case Glyph(c) => PrintLaid(m, off, rows, attrs, c);
    case Break =>
      ExecuteValid(m, 13);
      assert StepExecute(m, 13) == m.(x := 0);
      assert FeedOne(m, t) == NextRow(m);
      NextRowLaid(m, off, rows, attrs);
  }

  function Feed(m: Screen, text: seq<Token>): (r: Screen)
    requires Valid(m)
    ensures Valid(r)
    decreases |text|
  {
    if text == [] then m
    else
      var before := Feed(m, text[..|text| - 1]);
      FeedOneValid(before, text[|text| - 1]);
      FeedOne(before, text[|text| - 1])
  }

  /** The cells of the rows that feeding `text` scrolls off, oldest first. */
  function ScrolledOff(m: Screen, text: seq<Token>): seq<Cells>
    requires Valid(m)
    decreases |text|
  {
    if text == [] then []
    else ScrolledOff(m, text[..|text| - 1]) + OffOne(Feed(m, text[..|text| - 1]), text[|text| - 1])
  }

  lemma {:induction false} FeedLaid(m: Screen, text: seq<Token>)
    requires Laid(m, [], [[]], m.attrs)
    ensures Laid(Feed(m, text), ScrolledOff(m, text), TextRows(text, m.cols), m.attrs)
    ensures Feed(m, text).rows == m.rows && Feed(m, text).cols == m.cols
    decreases |text|
  {
    if text == [] {
      assert LayoutRows([[]], m.cols) == LayoutRows([], m.cols) + [[]];
    } else {
      var before := text[..|text| - 1];
      FeedLaid(m, before);
      TextRowsNext(text, m.cols);
      FeedOneValid(Feed(m, before), text[|text| - 1]);
      FeedOneLaid(Feed(m, before), ScrolledOff(m, before), TextRows(before, m.cols), m.attrs, text[|text| - 1]);
    }
  }

  lemma ClearedIsLaid(m: Screen)
    requires Valid(m)
    ensures Laid(Clear(m), [], [[]], m.attrs)
  {
    var c := Clear(m);
    assert RowCells([], m.attrs, m.cols) == BlankCells(m.cols);
    assert forall j :: 0 <= j < m.rows ==> c.lines[j].cells == BlankCells(m.cols);
  }

  /** `off` and then the visible rows show exactly `rows`, blank rows following, with the
      cursor where they end; only what the screen cannot hold has scrolled off. */
  ghost predicate ShowsLayout(m: Screen, off: seq<Cells>, rows: seq<Row>, attrs: Attrs) {
    && |m.lines| == m.rows
    && 1 <= |rows| <= |off| + m.rows
    && |off| == (if |rows| > m.rows then |rows| - m.rows else 0)
    && m.y == |rows| - 1 - |off| && m.x == |rows[|rows| - 1]|
    && (forall i :: 0 <= i < |rows| ==> |rows[i]| <= m.cols)
    && (forall i :: 0 <= i < |rows| ==>
          (if i < |off| then off[i] else m.lines[i - |off|].cells) == RowCells(rows[i], attrs, m.cols))
    && (forall j :: m.y < j < m.rows ==> m.lines[j].cells == BlankCells(m.cols))
  }

  lemma LaidShows(m: Screen, off: seq<Cells>, rows: seq<Row>, attrs: Attrs)
    requires Laid(m, off, rows, attrs)
    ensures ShowsLayout(m, off, rows, attrs)
  {
  }

  // ---- the scrollback ----

  /** Feeding a token adds to the scrollback just what it scrolls off. */
  lemma FeedOneGrows(m: Screen, t: Token) returns (evicted: seq<Line>)
    requires Valid(m)
    ensures Grows(m, FeedOne(m, t), evicted) && CellsOf(evicted) == OffOne(m, t)
  {
    match t
    case Glyph(c) =>
      PrintGrows(m, c);
      evicted := Evicts(m, Print(c));
    case Break =>
      ExecuteValid(m, 13);
      ScrollbackGrows(m, Execute(13));
      ScrollbackGrows(StepExecute(m, 13), Execute(10));
      assert m.scrollback + [] == m.scrollback;
      evicted := Evicts(StepExecute(m, 13), Execute(10));
  }

  lemma FeedOneKeeps(m: Screen, t: Token, held: seq<Cells>, off: seq<Cells>)
    requires Valid(m) && CellsOf(m.scrollback) == Capped(held + off, m.maxScrollback)
    ensures CellsOf(FeedOne(m, t).scrollback) == Capped(held + (off + OffOne(m, t)), m.maxScrollback)
    ensures FeedOne(m, t).maxScrollback == m.maxScrollback
  {
    var evicted := FeedOneGrows(m, t);
    HistoryGrows(m, FeedOne(m, t), evicted, held + off);
    Regroup(held, off, OffOne(m, t));
  }

  lemma Regroup<T>(a: seq<T>, b: seq<T>, c: seq<T>)
    ensures a + b + c == a + (b + c)
  {
  }

  /** The scrollback is the newest of what it held and every row scrolled off since. */
  lemma {:induction false} FeedGrows(m: Screen, text: seq<Token>)
    requires Valid(m)
    ensures CellsOf(Feed(m, text).scrollback) ==
              Capped(CellsOf(m.scrollback) + ScrolledOff(m, text), m.maxScrollback)
    ensures Feed(m, text).maxScrollback == m.maxScrollback
    decreases |text|
  {
    if text == [] {
      CappedNothing(CellsOf(m.scrollback), m.maxScrollback);
    } else {
      var before := text[..|text| - 1];
      FeedGrows(m, before);
      FeedOneKeeps(Feed(m, before), text[|text| - 1], CellsOf(m.scrollback), ScrolledOff(m, before));
    }
  }

  /** From a cleared screen, any text of printable characters and line breaks leaves the
      scrolled-off rows and the visible rows together showing exactly its layout; and of the
      scrolled-off rows the terminal keeps the newest, after what its scrollback held. */
  lemma OutputIsLayout(m0: Screen, text: seq<Token>)
    requires Valid(m0)
    ensures Valid(Clear(m0))
    ensures ShowsLayout(Feed(Clear(m0), text), ScrolledOff(Clear(m0), text), TextRows(text, m0.cols), m0.attrs)
    ensures CellsOf(Feed(Clear(m0), text).scrollback) ==
              Capped(CellsOf(m0.scrollback) + ScrolledOff(Clear(m0), text), m0.maxScrollback)
  {
    FeedGrows(Clear(m0), text);
    ClearedIsLaid(m0);
    FeedLaid(Clear(m0), text);
    LaidShows(Feed(Clear(m0), text), ScrolledOff(Clear(m0), text), TextRows(text, m0.cols), m0.attrs);
  }

  /** A paragraph loses nothing: its rows, joined, are its text, and every row but the last
      is full. */
  lemma {:induction false} CutRowsExact(p: Row, w: nat)
    requires w >= 1
    ensures Joined(CutRows(p, w)) == p
    ensures forall i :: 0 <= i < |CutRows(p, w)| - 1 ==> |CutRows(p, w)[i]| == w
    ensures |CutRows(p, w)[|CutRows(p, w)| - 1]| <= w
    ensures p != [] ==> CutRows(p, w)[|CutRows(p, w)| - 1] != []
    decreases |p|
  {
    if |p| > w {
      CutRowsExact(p[w..], w);
      assert p == p[..w] + p[w..];
      assert CutRows(p, w)[1..] == CutRows(p[w..], w);
    } else {
      assert Joined([p]) == p + Joined([][..0]);
    }
  }

  function Joined(rows: seq<Row>): Row {
    if rows == [] then [] else rows[0] + Joined(rows[1..])
  }
}
