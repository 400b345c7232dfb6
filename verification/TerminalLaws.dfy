/** What each control function does, as the cells show it: where the next character lands and
    in which attributes, which cells an erase blanks, which rows a scroll moves. */
module TerminalLaws {
  import opened Sequences
  import opened Terminal
  import opened TerminalProofs

  /** A control sequence as the parser delivers it when nothing in it is ignored. */
  function Sequence(params: seq<nat>, final: char): Action {
    Csi(params, true, final)
  }

  /** Parameter `i`; absent and 0 mean 1. */
  function Counted(params: seq<nat>, i: nat): (n: nat)
    ensures n >= 1
  {
    if i < |params| && params[i] != 0 then params[i] else 1
  }

  // ---- where the next character lands ----

  /** Printing `c` changes exactly the cell at `row` and `column`, and leaves the cursor after it. */
  ghost predicate Lands(m: Screen, c: char, row: nat, column: nat)
    requires Valid(m)
  {
    var p := Step(m, Print(c));
    && row < m.rows && column < m.cols && p.y == row && p.x == column + 1
    && |p.lines| == |m.lines| && p.scrollback == m.scrollback
    && forall i :: 0 <= i < |m.lines| ==>
         p.lines[i].cells ==
           if i == row then m.lines[i].cells[..column] + [Cell(c, m.attrs)] + m.lines[i].cells[column + 1..]
           else m.lines[i].cells
  }

  lemma LandsAtCursor(m: Screen, c: char)
    requires Valid(m) && m.x < m.cols
    ensures Lands(m, c, m.y, m.x)
  {
    var v := ResetView(m);
    assert ScrollIfPast(v) == v && Wrap(v) == v;
    var cells := m.lines[m.y].cells;
    assert cells[m.x := Cell(c, m.attrs)] == cells[..m.x] + [Cell(c, m.attrs)] + cells[m.x + 1..];
  }

  /** After Cursor Position (section 8.3.21 of ECMA-48) to a row and a column, in this order, the
      next character lands there, or at the screen's edge if it is beyond. */
  lemma CursorPosition(m: Screen, params: seq<nat>, final: char, c: char)
    requires Valid(m) && (final == 'H' || final == 'f')
    ensures var m' := Step(m, Sequence(params, final));
            && Valid(m') && m'.lines == m.lines && m'.scrollback == m.scrollback && m'.attrs == m.attrs
            && Lands(m', c, Min(Counted(params, 0), m.rows) - 1, Min(Counted(params, 1), m.cols) - 1)
  {
    var m' := Step(m, Sequence(params, final));
    StepValid(m, Sequence(params, final));
    LandsAtCursor(m', c);
  }

  /** Line Position Absolute (section 8.3.158) is Cursor Position with the column kept. */
  lemma LinePosition(m: Screen, params: seq<nat>)
    requires Valid(m)
    ensures var m' := Step(m, Sequence(params, 'd'));
            && m'.x == m.x
            && (m.x < m.cols ==> m' == Step(m, Sequence([Counted(params, 0), m.x + 1], 'H')))
            && m' == m.(y := Min(Counted(params, 0), m.rows) - 1)
  {
  }

  /** Cursor Up and Down (sections 8.3.22 and 8.3.19) by `n` keep the column and go `n` rows, or
      as many as there are. */
  lemma CursorRows(m: Screen, params: seq<nat>)
    requires Valid(m)
    ensures var n := Counted(params, 0);
            && Step(m, Sequence(params, 'A')) == m.(y := if n <= m.y then m.y - n else 0)
            && Step(m, Sequence(params, 'B')) == m.(y := if m.y + n < m.rows then m.y + n else m.rows - 1)
  {
  }

  /** Cursor Right and Left (sections 8.3.20 and 8.3.18) by `n` do so along the row. */
  lemma CursorColumns(m: Screen, params: seq<nat>)
    requires Valid(m)
    ensures var n := Counted(params, 0);
            && Step(m, Sequence(params, 'C')) == m.(x := if m.x + n < m.cols then m.x + n else m.cols - 1)
            && Step(m, Sequence(params, 'D')) == m.(x := if n <= m.x then m.x - n else 0)
  {
  }

  /** So right undoes left, and down undoes up, where there was room. */
  lemma MovesUndo(m: Screen, n: nat)
    requires Valid(m) && n >= 1
    ensures Valid(Step(m, Sequence([n], 'A'))) && Valid(Step(m, Sequence([n], 'D')))
    ensures n <= m.y ==> Step(Step(m, Sequence([n], 'A')), Sequence([n], 'B')) == m
    ensures n <= m.x < m.cols ==> Step(Step(m, Sequence([n], 'D')), Sequence([n], 'C')) == m
  {
    StepValid(m, Sequence([n], 'A'));
    StepValid(m, Sequence([n], 'D'));
    CursorRows(m, [n]);
    CursorColumns(m, [n]);
    CursorRows(Step(m, Sequence([n], 'A')), [n]);
    CursorColumns(Step(m, Sequence([n], 'D')), [n]);
  }

  /** A carriage return goes to the first column, a backspace one column back if there is one;
      of the other bytes only a line feed does more than end a look back. */
  lemma ControlBytes(m: Screen, byte: nat)
    requires Valid(m) && byte != 10
    ensures var m' := Step(m, Execute(byte));
            && m'.y == m.y && m'.lines == m.lines && m'.scrollback == m.scrollback && m'.viewport == 0
            && m'.x == (if byte == 13 then 0 else if byte == 8 && m.x > 0 then m.x - 1 else m.x)
            && m'.attrs == m.attrs && m'.top == m.top && m'.bottom == m.bottom && m'.overlay == m.overlay
  {
  }

  /** A line feed goes down one row in the same column; on the last row every row moves up and
      the top one is scrolled off. */
  lemma LineFeeds(m: Screen)
    requires Valid(m)
    ensures var m' := Step(m, Execute(10));
            && m'.x == m.x && m'.attrs == m.attrs && |m'.lines| == m.rows
            && (m.y + 1 < m.rows ==> m'.y == m.y + 1 && m'.lines == m.lines && m'.scrollback == m.scrollback)
            && (m.y + 1 == m.rows ==>
                  && m'.y == m.y && m'.lines[m.rows - 1].cells == BlankCells(m.cols)
                  && (forall i :: 0 <= i < m.rows - 1 ==> m'.lines[i] == m.lines[i + 1])
                  && (m.maxScrollback > 0 ==>
                        m'.scrollback != [] && m'.scrollback[|m'.scrollback| - 1] == m.lines[0]))
  {
  }

  // ---- erasing ----

  /** The cell at `i`, `j` comes before the cursor, row by row. */
  predicate Before(m: Screen, i: nat, j: nat) {
    i < m.y || (i == m.y && j < m.x)
  }

  predicate AtCursor(m: Screen, i: nat, j: nat) {
    i == m.y && j == m.x
  }

  /** Exactly the cells that `erased` picks are blank, in the current attributes on the
      cursor's row and in the default ones elsewhere, and all others are as they were. */
  ghost predicate Erases(m: Screen, m': Screen, erased: (nat, nat) -> bool)
    requires Valid(m)
  {
    && |m'.lines| == m.rows && m'.scrollback == m.scrollback
    && forall i, j :: 0 <= i < m.rows && 0 <= j < m.cols ==>
         && |m'.lines[i].cells| == m.cols
         && m'.lines[i].cells[j] ==
              if !erased(i, j) then m.lines[i].cells[j]
              else Cell(' ', if i == m.y then m.attrs else DEFAULT_ATTRS)
  }

  predicate CursorKept(m: Screen, m': Screen) {
    m'.x == m.x && m'.y == m.y && m'.attrs == m.attrs && m'.top == m.top && m'.bottom == m.bottom
  }

  /** Erase in Display (section 8.3.39) blanks from the cursor on ... */
  lemma EraseBelow(m: Screen, params: seq<nat>)
    requires Valid(m) && (params == [] || params[0] == 0)
    ensures var m' := Step(m, Sequence(params, 'J'));
            Erases(m, m', (i: nat, j: nat) => !Before(m, i, j)) && CursorKept(m, m')
  {
  }

  /** ... or up to and including it ... */
  lemma EraseAbove(m: Screen, params: seq<nat>)
    requires Valid(m) && m.x < m.cols && params != [] && params[0] == 1
    ensures var m' := Step(m, Sequence(params, 'J'));
            Erases(m, m', (i: nat, j: nat) => Before(m, i, j) || AtCursor(m, i, j)) && CursorKept(m, m')
  {
  }

  /** ... or everything, the cursor going home and the view to the live screen. */
  lemma EraseAll(m: Screen, params: seq<nat>)
    requires Valid(m) && params != [] && params[0] == 2
    ensures var m' := Step(m, Sequence(params, 'J'));
            && m'.x == 0 && m'.y == 0 && m'.viewport == 0 && m'.fullRepaint && m'.attrs == m.attrs
            && |m'.lines| == m.rows && m'.scrollback == m.scrollback
            && forall i :: 0 <= i < m.rows ==> m'.lines[i].cells == BlankCells(m.cols)
  {
  }

  /** Erase in Line (section 8.3.41) does so on the cursor's row only. */
  lemma EraseRight(m: Screen, params: seq<nat>)
    requires Valid(m) && (params == [] || params[0] == 0)
    ensures var m' := Step(m, Sequence(params, 'K'));
            Erases(m, m', (i: nat, j: nat) => i == m.y && !Before(m, i, j)) && CursorKept(m, m')
  {
  }

  lemma EraseLeft(m: Screen, params: seq<nat>)
    requires Valid(m) && m.x < m.cols && params != [] && params[0] == 1
    ensures var m' := Step(m, Sequence(params, 'K'));
            Erases(m, m', (i: nat, j: nat) => i == m.y && (Before(m, i, j) || AtCursor(m, i, j))) && CursorKept(m, m')
  {
  }

  lemma EraseRow(m: Screen, params: seq<nat>)
    requires Valid(m) && params != [] && params[0] == 2
    ensures var m' := Step(m, Sequence(params, 'K'));
            Erases(m, m', (i: nat, j: nat) => i == m.y) && CursorKept(m, m')
  {
  }

  /** Any other mode erases nothing. */
  lemma EraseNothing(m: Screen, params: seq<nat>, final: char)
    requires Valid(m) && (final == 'J' || final == 'K') && params != [] && params[0] > 2
    ensures var m' := Step(m, Sequence(params, final));
            Erases(m, m', (i: nat, j: nat) => false) && CursorKept(m, m')
  {
  }

  /** Erase Character (section 8.3.38) blanks as many cells from the cursor on. */
  lemma EraseCharacters(m: Screen, params: seq<nat>)
    requires Valid(m)
    ensures var m' := Step(m, Sequence(params, 'X'));
            && Erases(m, m', (i: nat, j: nat) => i == m.y && m.x <= j < m.x + Counted(params, 0))
            && CursorKept(m, m')
  {
    var n := Counted(params, 0);
    assert MoveCount(params) == n;
    assert Step(m, Sequence(params, 'X')) == EraseIn(m, m.x, Min(m.x + n, m.cols));
  }

  // ---- rendition ----

  /** What a Select Graphic Rendition number (section 8.3.117) leaves of the attributes, one
      attribute at a time. */
  predicate Rendered(a: Attrs, p: nat, r: Attrs) {
    && (r.bold <==> p == 1 || (a.bold && p != 0 && p != 22))
    && (r.underline <==> p == 4 || (a.underline && p != 0 && p != 24))
    && (r.reverse <==> p == 7 || (a.reverse && p != 0 && p != 27))
    && r.fg == (if 30 <= p <= 37 then Indexed(p - 30)
                else if 90 <= p <= 97 then Indexed(p - 82)
                else if p == 0 || p == 39 then DefaultFg
                else a.fg)
    && r.bg == (if 40 <= p <= 47 then Indexed(p - 40)
                else if 100 <= p <= 107 then Indexed(p - 92)
                else if p == 0 || p == 49 then DefaultBg
                else a.bg)
  }

  lemma OneRendition(a: Attrs, p: nat)
    ensures Rendered(a, p, Sgr(a, [p]))
  {
    assert [p][..0] == [];
    assert Sgr(a, [p]) == SgrOne(a, p);
  }

  /** The cell printed after one number has the attributes it leaves, and it changes nothing else. */
  lemma RenditionOfNext(m: Screen, p: nat, c: char)
    requires Valid(m) && m.x < m.cols
    ensures var m' := Step(m, Sequence([p], 'm'));
            && Valid(m') && m' == m.(attrs := m'.attrs) && Rendered(m.attrs, p, m'.attrs)
            && Lands(m', c, m.y, m.x)
            && Step(m', Print(c)).lines[m.y].cells[m.x] == Cell(c, m'.attrs)
  {
    var m' := Step(m, Sequence([p], 'm'));
    OneRendition(m.attrs, p);
    StepValid(m, Sequence([p], 'm'));
    LandsAtCursor(m', c);
  }

  lemma {:induction false} SgrTwice(a: Attrs, first: seq<nat>, more: seq<nat>)
    ensures Sgr(a, first + more) == Sgr(Sgr(a, first), more)
    decreases |more|
  {
    if more == [] {
      assert first + more == first;
    } else {
      var front := more[..|more| - 1];
      SgrTwice(a, first, front);
      assert (first + more)[..|first + more| - 1] == first + front;
    }
  }

  /** Several numbers in one sequence act one after another, as in sequences of their own. */
  lemma RenditionsInOrder(m: Screen, first: seq<nat>, more: seq<nat>)
    requires Valid(m)
    ensures Valid(Step(m, Sequence(first, 'm')))
    ensures Step(m, Sequence(first + more, 'm')) == Step(Step(m, Sequence(first, 'm')), Sequence(more, 'm'))
  {
    StepValid(m, Sequence(first, 'm'));
    SgrTwice(m.attrs, first, more);
  }

  // ---- scrolling a region ----

  /** Rows `top` to `bottom` moved up by `n`, blank rows following; the others as they were. */
  ghost predicate RowsMoved(lines: seq<Line>, lines': seq<Line>, cols: nat, top: nat, bottom: nat, n: nat)
    requires bottom < |lines|
  {
    && |lines'| == |lines|
    && forall i :: 0 <= i < |lines| ==>
         lines'[i].cells ==
           if i < top || bottom < i then lines[i].cells
           else if i + n <= bottom then lines[i + n].cells
           else BlankCells(cols)
  }

  /** The screen's last row, or the one given if that is above it. */
  function LastRow(m: Screen, bottom: nat): nat {
    if bottom == 0 || bottom > m.rows then m.rows else bottom
  }

  /** Set Top and Bottom Margins takes the first row and the last; a last row of 0 or beyond
      the screen is the screen's last. */
  lemma MarginsAre(m: Screen, top: nat, bottom: nat)
    requires Valid(m) && 1 <= top && (bottom == 0 || top < bottom) && top < m.rows
    ensures Step(m, Sequence([top, bottom], 'r')) == m.(top := top - 1, bottom := LastRow(m, bottom) - 1)
  {
  }

  /** Scrolling up moves exactly the rows between the margins. */
  ghost predicate ScrollsBetween(m: Screen, top: nat, bottom: nat, params: seq<nat>)
    requires Valid(m)
  {
    var m' := Step(m, Sequence(params, 'S'));
    && bottom < m.rows && RowsMoved(m.lines, m'.lines, m.cols, top, bottom, Counted(params, 0))
    && CursorKept(m, m')
  }

  lemma BetweenMargins(m: Screen, top: nat, bottom: nat, params: seq<nat>)
    requires Valid(m) && top < bottom < m.rows
    ensures Valid(m.(top := top, bottom := bottom))
    ensures ScrollsBetween(m.(top := top, bottom := bottom), top, bottom, params)
  {
    ScrollMoves(m.(top := top, bottom := bottom), params);
  }

  /** Setting margins and then scrolling up moves exactly the rows between them, and setting
      them moves none. */
  lemma MarginsThenScroll(m: Screen, top: nat, bottom: nat, params: seq<nat>) returns (margins: Screen)
    requires Valid(m) && 1 <= top && (bottom == 0 || top < bottom) && top < m.rows
    ensures margins == Step(m, Sequence([top, bottom], 'r'))
    ensures Valid(margins) && margins.lines == m.lines
    ensures ScrollsBetween(margins, top - 1, LastRow(m, bottom) - 1, params)
  {
    var first, last := top - 1, LastRow(m, bottom) - 1;
    margins := m.(top := first, bottom := last);
    BetweenMargins(m, first, last, params);
    assert margins == Step(m, Sequence([top, bottom], 'r')) by {
      MarginsAre(m, top, bottom);
    }
  }

  lemma ShiftedAt(lines: seq<Line>, top: nat, bottom: nat, n: nat, cols: nat, i: nat)
    requires top + n <= bottom + 1 <= |lines| && i < |lines|
    ensures ShiftedUp(lines, top, bottom, n, cols)[i] ==
              if i < top || bottom < i then lines[i]
              else if i + n <= bottom then lines[i + n]
              else BlankLine(cols)
  {
  }

  lemma ShiftMoves(lines: seq<Line>, top: nat, bottom: nat, n: nat, k: nat, cols: nat)
    requires top <= bottom < |lines| && k == (if n < bottom - top + 1 then n else bottom - top + 1)
    ensures RowsMoved(lines, ShiftedUp(lines, top, bottom, k, cols), cols, top, bottom, n)
  {
    forall i | 0 <= i < |lines|
      ensures ShiftedUp(lines, top, bottom, k, cols)[i].cells ==
                if i < top || bottom < i then lines[i].cells
                else if i + n <= bottom then lines[i + n].cells
                else BlankCells(cols)
    {
      ShiftedAt(lines, top, bottom, k, cols, i);
    }
  }

  lemma ScrollMoves(m: Screen, params: seq<nat>)
    requires Valid(m) && m.top < m.bottom
    ensures RowsMoved(m.lines, Step(m, Sequence(params, 'S')).lines, m.cols, m.top, m.bottom, Counted(params, 0))
    ensures CursorKept(m, Step(m, Sequence(params, 'S')))
  {
    var n := Counted(params, 0);
    assert MoveCount(params) == n;
    ShiftMoves(m.lines, m.top, m.bottom, n, if n < m.bottom - m.top + 1 then n else m.bottom - m.top + 1, m.cols);
  }

  /** Margins with the first row not above the last are ignored. */
  lemma MarginsIgnored(m: Screen, top: nat, bottom: nat)
    requires Valid(m) && bottom != 0 && (top >= bottom || top >= m.rows)
    ensures Step(m, Sequence([top, bottom], 'r')) == m
  {
  }

  /** Without parameters the margins are the whole screen. */
  lemma MarginsReset(m: Screen)
    requires Valid(m) && m.rows > 1
    ensures Step(m, Sequence([], 'r')) == m.(top := 0, bottom := m.rows - 1)
  {
  }

  /** Sequences the parser marks and sequences of any other kind do nothing. */
  lemma OthersIgnored(m: Screen, params: seq<nat>, plain: bool, final: char)
    requires Valid(m) && (!plain || final !in "ABCDHfdJKXrSm")
    ensures Defined(m, Csi(params, plain, final)) && Step(m, Csi(params, plain, final)) == m
  {
  }

  // ---- looking back ----

  /** Row `y` of the screen, counted from the oldest row held. */
  predicate ShowsRow(m: Screen, y: nat, line: Line) {
    m.viewport <= |m.scrollback| && |m.lines| == m.rows && y < m.rows && Window(m)[y] == line
  }

  lemma WindowAt(m: Screen, y: nat)
    requires Valid(m) && y < m.rows
    ensures ShowsRow(m, y, (m.scrollback + m.lines)[|m.scrollback| - m.viewport + y])
  {
  }

  /** Scrolling the view back shows the rows as many rows earlier, as far as there are any. */
  lemma ViewUpShows(m: Screen, n: nat, y: nat)
    requires Valid(m) && y < m.rows
    ensures ShowsRow(Step(m, ViewUp(n)), y,
                     (m.scrollback + m.lines)[|m.scrollback| - Min(m.viewport + n, |m.scrollback|) + y])
  {
    WindowAt(ScrollViewUp(m, n), y);
  }

  /** Scrolling it forward shows those as many rows later, down to the live screen. */
  lemma ViewDownShows(m: Screen, n: nat, y: nat)
    requires Valid(m) && y < m.rows
    ensures var left := if n < m.viewport then m.viewport - n else 0;
            ShowsRow(Step(m, ViewDown(n)), y, (m.scrollback + m.lines)[|m.scrollback| - left + y])
  {
    WindowAt(ScrollViewDown(m, n), y);
  }

  lemma ViewResetShows(m: Screen, y: nat)
    requires Valid(m) && y < m.rows
    ensures ShowsRow(Step(m, ViewReset), y, m.lines[y])
  {
    WindowAt(ResetView(m), y);
  }

  // ---- overlays over a run ----

  /** An undefined action leaves the screen as it is. */
  function Run(m: Screen, actions: seq<Action>): (r: Screen)
    requires Valid(m)
    ensures Valid(r)
    decreases |actions|
  {
    if actions == [] then m
    else
      var before, a := Run(m, actions[..|actions| - 1]), actions[|actions| - 1];
      if Defined(before, a) then
        StepValid(before, a);
        Step(before, a)
      else before
  }

  /** The overlay to come back to: the last one shown without a deadline and not hidden since. */
  function Lasting(actions: seq<Action>): Option<string> {
    if actions == [] then None
    else
      match actions[|actions| - 1]
      case Show(text) => Some(text)
      case Hide => None
      case _ => Lasting(actions[..|actions| - 1])
  }

  datatype Notice = Notice(text: string, until: nat)

  /** The notice that is up: the last one since any other overlay, unless a tick has found its
      time over. */
  function Noticed(actions: seq<Action>): Option<Notice> {
    if actions == [] then None
    else
      var before := Noticed(actions[..|actions| - 1]);
      match actions[|actions| - 1]
      case Show(_) => None
      case Hide => None
      case Timed(text, now, duration) => Some(Notice(text, Min(now + duration, MAX_U64)))
      case Tick(now) => if before.Some? && before.value.until <= now then None else before
      case _ => before
  }

  /** What is on top: the notice, or else the lasting overlay. */
  function Top(actions: seq<Action>): Option<string> {
    if Noticed(actions).Some? then Some(Noticed(actions).value.text) else Lasting(actions)
  }

  ghost predicate Overlaid(m: Screen, lasting: Option<string>, noticed: Option<Notice>) {
    && m.overlay.restore == lasting
    && m.overlay.deadline == (if noticed.Some? then Some(noticed.value.until) else None)
    && m.overlay.shown == (if noticed.Some? then Some(noticed.value.text) else lasting)
  }

  lemma OverlayUntouched(m: Screen, a: Action)
    requires Valid(m) && Defined(m, a) && !a.Show? && !a.Hide? && !a.Timed? && !a.Tick?
    ensures Step(m, a).overlay == m.overlay
  {
  }

  lemma OverlayStep(m: Screen, actions: seq<Action>, a: Action)
    requires Valid(m) && Defined(m, a) && Overlaid(m, Lasting(actions), Noticed(actions))
    ensures Overlaid(Step(m, a), Lasting(actions + [a]), Noticed(actions + [a]))
  {
    assert (actions + [a])[..|actions|] == actions;
    if !a.Show? && !a.Hide? && !a.Timed? && !a.Tick? {
      OverlayUntouched(m, a);
    }
  }

  /** Whatever else happens, the overlay shown is the current notice, or after its time the
      lasting overlay that it covered, or none. */
  lemma {:induction false} OverlayShown(m: Screen, actions: seq<Action>)
    requires Valid(m) && m.overlay == Overlay(None, None, None)
    ensures Overlaid(Run(m, actions), Lasting(actions), Noticed(actions))
    ensures Run(m, actions).overlay.shown == Top(actions)
    decreases |actions|
  {
    if actions != [] {
      var before, a := actions[..|actions| - 1], actions[|actions| - 1];
      OverlayShown(m, before);
      assert before + [a] == actions;
      if Defined(Run(m, before), a) {
        OverlayStep(Run(m, before), before, a);
      }
    }
  }
}
