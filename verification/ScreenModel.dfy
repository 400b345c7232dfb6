/** The screen model updated in place (terminal-model/src/screen_model.rs), each method
    proved against the meaning given in `Terminal`. */
module ScreenModel {
  import opened Sequences
  import opened Terminal
  import opened TerminalProofs

  // ---- one row of a scroll ----

  lemma ShiftOne(lines: seq<Line>, top: nat, bottom: nat, n: nat, cols: nat)
    requires top + n <= bottom < |lines|
    ensures var s := ShiftedUp(lines, top, bottom, n, cols);
            var removed := s[..top] + s[top + 1..];
            && s[top] == lines[top + n]
            && removed[..bottom] + [BlankLine(cols)] + removed[bottom..] == ShiftedUp(lines, top, bottom, n + 1, cols)
  {
    var s := ShiftedUp(lines, top, bottom, n, cols);
    var removed := s[..top] + s[top + 1..];
    var t := ShiftedUp(lines, top, bottom, n + 1, cols);
    assert removed[bottom..] == lines[bottom + 1..];
    assert removed[..bottom] == lines[..top] + lines[top + n + 1..bottom + 1] + BlankLines(n, cols);
    assert BlankLines(n + 1, cols) == BlankLines(n, cols) + [BlankLine(cols)];
  }

  /** `now` is `before` with the region moved up by `n`. */
  ghost predicate Rotated(before: seq<Line>, now: seq<Line>, top: nat, bottom: nat, n: nat, cols: nat) {
    top + n <= bottom + 1 <= |before| && now == ShiftedUp(before, top, bottom, n, cols)
  }

  lemma RotatedOnce(before: seq<Line>, now: seq<Line>, top: nat, bottom: nat, n: nat, cols: nat)
    requires top + n <= bottom < |before| && Rotated(before, now, top, bottom, n, cols)
    ensures |now| == |before| && now[top] == before[top + n]
    ensures var removed := now[..top] + now[top + 1..];
            Rotated(before, removed[..bottom] + [BlankLine(cols)] + removed[bottom..], top, bottom, n + 1, cols)
  {
    ShiftOne(before, top, bottom, n, cols);
  }

  /** What `n` rounds of a scroll of a region starting at row 0 leave in the scrollback. */
  function Pushed(kept: seq<Line>, before: seq<Line>, n: nat, cap: nat): seq<Line>
    requires n <= |before|
  {
    Capped(kept + before[..n], cap)
  }

  lemma PushedOnce(kept: seq<Line>, before: seq<Line>, n: nat, cap: nat)
    requires n < |before|
    ensures Capped(Pushed(kept, before, n, cap) + [before[n]], cap) == Pushed(kept, before, n + 1, cap)
  {
    CapOne(kept + before[..n], before[n], cap);
    assert kept + before[..n] + [before[n]] == kept + before[..n + 1];
  }

  /** The scrollback after `n` rounds of the scroll of a region starting at row `top`. */
  ghost predicate PushedTo(now: seq<Line>, kept: seq<Line>, before: seq<Line>, top: nat, n: nat, cap: nat) {
    n <= |before| && now == if top == 0 then Pushed(kept, before, n, cap) else kept
  }

  lemma ScrolledNone(before: seq<Line>, kept: seq<Line>, top: nat, bottom: nat, cols: nat, cap: nat)
    requires top <= bottom + 1 <= |before| && |kept| <= cap
    ensures Rotated(before, before, top, bottom, 0, cols) && PushedTo(kept, kept, before, top, 0, cap)
  {
    assert kept + before[..0] == kept;
  }

  lemma CapOne(rows: seq<Line>, line: Line, cap: nat)
    ensures var s := Capped(rows, cap) + [line];
            (if |s| > cap then s[1..] else s) == Capped(rows + [line], cap)
  {
  }

  /** What `count` rounds leave is what the whole scroll of the region does. */
  lemma RegionScrolled(m: Screen, n: nat, count: nat, lines: seq<Line>, scrollback: seq<Line>)
    requires Grid(m) && m.top < m.bottom
    requires count == if n < m.bottom - m.top + 1 then n else m.bottom - m.top + 1
    requires Rotated(m.lines, lines, m.top, m.bottom, count, m.cols)
    requires PushedTo(scrollback, m.scrollback, m.lines, m.top, count, m.maxScrollback)
    ensures Terminal.ScrollRegionUp(m, n) == m.(lines := lines, scrollback := scrollback, fullRepaint := true)
  {
    assert lines == ShiftedUp(m.lines, m.top, m.bottom, count, m.cols);
    if m.top == 0 {
      assert RegionEvicts(m, n) == m.lines[..count];
    } else {
      CappedNothing(m.scrollback, m.maxScrollback);
    }
  }

  class ScreenModel {
    var lines: seq<Line>
    var scrollback: seq<Line>
    var viewportOffset: nat
    var maxScrollback: nat
    var cursorX: nat
    var cursorY: nat
    var currentAttrs: Attrs
    const rows: nat
    const cols: nat
    var scrollTop: nat
    var scrollBottom: nat
    var fullRepaint: bool
    var overlay: Option<string>
    var overlayRestore: Option<string>
    var overlayDeadline: Option<nat>
    const sizes: Sizes
    /** The most lines ever held at once, counted at every push, insert and append. */
    ghost var peak: nat

    ghost function View(): Screen
      reads this
    {
      Screen(lines, scrollback, viewportOffset, maxScrollback, cursorX, cursorY, currentAttrs,
             rows, cols, scrollTop, scrollBottom, fullRepaint,
             Overlay(overlay, overlayRestore, overlayDeadline))
    }

    /** The scrollback cap is a safe one and the buffers never outgrew it, even midway
        through a scroll. */
    ghost predicate WithinBudget()
      reads this
    {
      && maxScrollback <= SafeMaxScrollback(sizes, cols, rows)
      && peak <= rows + SafeMaxScrollback(sizes, cols, rows)
    }

    ghost predicate Ok()
      reads this
    {
      Valid(View()) && WithinBudget()
    }

    /** So while the screen and one line more fit the heap budget, so do the lines held - now
        and at any moment so far, midway through a scroll included. */
    lemma HeldLinesFit()
      requires Ok() && (rows + 1) * BytesPerLine(sizes, cols) <= SCREEN_HEAP_BUDGET_BYTES
      ensures peak * BytesPerLine(sizes, cols) <= SCREEN_HEAP_BUDGET_BYTES
      ensures (|lines| + |scrollback|) * BytesPerLine(sizes, cols) <= SCREEN_HEAP_BUDGET_BYTES
    {
      WithinHeapBudget(sizes, rows, cols, peak);
      WithinHeapBudget(sizes, rows, cols, |lines| + |scrollback|);
    }

    constructor (rows: nat, cols: nat, sizes: Sizes)
      requires 1 <= rows && 1 <= cols
      ensures Ok() && this.rows == rows && this.cols == cols && this.sizes == sizes
      ensures View() == Screen(BlankLines(rows, cols), [], 0, SafeMaxScrollback(sizes, cols, rows), 0, 0,
                               DEFAULT_ATTRS, rows, cols, 0, rows - 1, true, Overlay(None, None, None))
    {
      this.rows, this.cols, this.sizes := rows, cols, sizes;
      lines, scrollback, viewportOffset := BlankLines(rows, cols), [], 0;
      maxScrollback := SafeMaxScrollback(sizes, cols, rows);
      cursorX, cursorY, currentAttrs := 0, 0, DEFAULT_ATTRS;
      scrollTop, scrollBottom, fullRepaint := 0, rows - 1, true;
      overlay, overlayRestore, overlayDeadline := None, None, None;
      peak := rows;
    }

    // ---- scrolling ----

    /** Appends a row to the scrollback, dropping the oldest past the cap. */
    method PushScrollback(line: Line)
      requires |scrollback| <= maxScrollback && |lines| + 1 <= rows && WithinBudget()
      modifies this`scrollback, this`peak
      ensures scrollback == Capped(old(scrollback) + [line], maxScrollback)
      ensures WithinBudget()
    {
      CapOne(scrollback, line, maxScrollback);
      scrollback := scrollback + [line];
      peak := Max(peak, |lines| + |scrollback|);
      if |scrollback| > maxScrollback {
        scrollback := scrollback[1..];
      }
    }

    method RemoveLine(i: nat) returns (line: Line)
      requires i < |lines|
      modifies this`lines
      ensures line == old(lines)[i] && lines == old(lines)[..i] + old(lines)[i + 1..]
    {
      line := lines[i];
      lines := lines[..i] + lines[i + 1..];
    }

    method InsertLine(i: nat, line: Line)
      requires i <= |lines| && |lines| + 1 <= rows && |scrollback| <= maxScrollback && WithinBudget()
      modifies this`lines, this`peak
      ensures lines == old(lines)[..i] + [line] + old(lines)[i..]
      ensures WithinBudget()
    {
      lines := lines[..i] + [line] + lines[i..];
      peak := Max(peak, |lines| + |scrollback|);
    }

    /** Moves the top row to the scrollback and adds a blank one at the bottom. */
    method ScrollOnce()
      requires |lines| == rows >= 1 && |scrollback| <= maxScrollback && WithinBudget()
      modifies this`lines, this`scrollback, this`peak
      ensures lines == old(lines)[1..] + [BlankLine(cols)] && WithinBudget()
      ensures scrollback == Capped(old(scrollback) + [old(lines)[0]], maxScrollback)
    {
      ghost var before := lines;
      var line := RemoveLine(0);
      PushScrollback(line);
      InsertLine(|lines|, BlankLine(cols));
      assert lines == before[1..] + [BlankLine(cols)];
    }

    method ScrollUp()
      requires Grid(View()) && WithinBudget()
      modifies this
      ensures View() == Terminal.ScrollUp(old(View())) && WithinBudget()
    {
      if lines != [] {
        ScrollOnce();
        fullRepaint := true;
      }
    }

    /** One line of a region scroll. */
    method ScrollRegionOnce(top: nat, bottom: nat)
      requires top <= bottom < rows && |lines| == rows && |scrollback| <= maxScrollback && WithinBudget()
      modifies this`lines, this`scrollback, this`peak
      ensures var removed := old(lines)[..top] + old(lines)[top + 1..];
              lines == removed[..bottom] + [BlankLine(cols)] + removed[bottom..]
      ensures scrollback ==
                if top == 0 then Capped(old(scrollback) + [old(lines)[0]], maxScrollback) else old(scrollback)
      ensures WithinBudget()
    {
      var line := RemoveLine(top);
      if top == 0 {
        PushScrollback(line);
      }
      InsertLine(bottom, BlankLine(cols));
    }

    /** Round `i` of the scroll of a region. */
    method ScrollRegionNext(top: nat, bottom: nat, i: nat, ghost before: seq<Line>, ghost kept: seq<Line>)
      requires WithinBudget() && |lines| == rows && |scrollback| <= maxScrollback
      requires top + i <= bottom < rows && Rotated(before, lines, top, bottom, i, cols)
      requires PushedTo(scrollback, kept, before, top, i, maxScrollback)
      modifies this`lines, this`scrollback, this`peak
      ensures WithinBudget() && |lines| == rows && |scrollback| <= maxScrollback
      ensures Rotated(before, lines, top, bottom, i + 1, cols)
      ensures PushedTo(scrollback, kept, before, top, i + 1, maxScrollback)
    {
      RotatedOnce(before, lines, top, bottom, i, cols);
      PushedOnce(kept, before, i, maxScrollback);
      ScrollRegionOnce(top, bottom);
    }

    method ScrollRegionTimes(top: nat, bottom: nat, count: nat)
      requires WithinBudget() && |lines| == rows && |scrollback| <= maxScrollback
      requires top + count <= bottom + 1 <= rows
      modifies this`lines, this`scrollback, this`peak
      ensures Rotated(old(lines), lines, top, bottom, count, cols) && WithinBudget()
      ensures PushedTo(scrollback, old(scrollback), old(lines), top, count, maxScrollback)
    {
      ghost var before, kept := lines, scrollback;
      ScrolledNone(before, kept, top, bottom, cols, maxScrollback);
      var i := 0;
      while i < count
        invariant i <= count && WithinBudget() && |lines| == rows && |scrollback| <= maxScrollback
        invariant Rotated(before, lines, top, bottom, i, cols)
        invariant PushedTo(scrollback, kept, before, top, i, maxScrollback)
      {
        ScrollRegionNext(top, bottom, i, before, kept);
        i := i + 1;
      }
    }

    method ScrollRegionUp(n: nat)
      requires Ok()
      modifies this
      ensures View() == Terminal.ScrollRegionUp(old(View()), n) && WithinBudget()
    {
      var top := if scrollTop < rows - 1 then scrollTop else rows - 1;
      var bottom := if scrollBottom < rows - 1 then scrollBottom else rows - 1;
      if top >= bottom {
        return;
      }
      var height := bottom - top + 1;
      var count := if n < height then n else height;
      ScrollRegionTimes(top, bottom, count);
      fullRepaint := true;
      RegionScrolled(old(View()), n, count, lines, scrollback);
    }

    method ScrollIfCursorPastBottom()
      requires Grid(View()) && WithinBudget()
      modifies this
      ensures View() == ScrollIfPast(old(View())) && WithinBudget()
    {
      if cursorY >= rows {
        ScrollUp();
        cursorY := rows - 1;
      }
    }

    // ---- viewport ----

    method ScrollViewUp(n: nat)
      modifies this`viewportOffset, this`fullRepaint
      ensures View() == Terminal.ScrollViewUp(old(View()), n)
    {
      viewportOffset := Min(viewportOffset + n, |scrollback|);
      fullRepaint := true;
    }

    method ScrollViewDown(n: nat)
      modifies this`viewportOffset, this`fullRepaint
      ensures View() == Terminal.ScrollViewDown(old(View()), n)
    {
      viewportOffset := if n < viewportOffset then viewportOffset - n else 0;
      fullRepaint := true;
    }

    method ResetView()
      modifies this`viewportOffset, this`fullRepaint
      ensures View() == Terminal.ResetView(old(View()))
    {
      if viewportOffset != 0 {
        viewportOffset := 0;
        fullRepaint := true;
      }
    }

    method SetMaxScrollback(max: nat)
      requires Ok()
      modifies this`maxScrollback, this`scrollback, this`viewportOffset
      ensures View() == Terminal.SetMaxScrollback(old(View()), max, SafeMaxScrollback(sizes, cols, rows))
      ensures WithinBudget()
    {
      var cap := Min(max, SafeMaxScrollback(sizes, cols, rows));
      maxScrollback := cap;
      if |scrollback| > cap {
        var removeCount := |scrollback| - cap;
        scrollback := scrollback[removeCount..];
        if viewportOffset > |scrollback| {
          viewportOffset := |scrollback|;
        }
      }
    }

    // ---- rows ----

    /** Blanks `[start, end)` of row `y` cell by cell and marks the row dirty. */
    method EraseRow(y: nat, start: nat, end: nat, attrs: Attrs)
      requires y < |lines| && start <= end <= |lines[y].cells|
      modifies this`lines
      ensures lines == old(lines)[y := Line(EraseCells(old(lines)[y].cells, start, end, attrs), true)]
    {
      var cells := lines[y].cells;
      ghost var before := cells;
      var i := start;
      while i < end
        invariant start <= i <= end && |cells| == |before|
        invariant forall k :: 0 <= k < |cells| ==>
                    cells[k] == if start <= k < i then Cell(' ', attrs) else before[k]
      {
        cells := cells[i := Cell(' ', attrs)];
        i := i + 1;
      }
      assert cells == EraseCells(before, start, end, attrs);
      lines := lines[y := Line(cells, true)];
    }

    /** Clears rows `[from, to)` to default blanks. */
    method ClearLines(from: nat, to: nat)
      requires from <= to <= |lines|
      modifies this`lines
      ensures lines == ClearRows(old(lines), from, to)
    {
      ghost var before := lines;
      var i := from;
      while i < to
        invariant from <= i <= to && lines == ClearRows(before, from, i)
      {
        EraseRow(i, 0, |lines[i].cells|, DEFAULT_ATTRS);
        assert lines[i] == BlankLine(|before[i].cells|) by {
          assert lines[i].cells == BlankCells(|before[i].cells|);
        }
        i := i + 1;
      }
    }

    method Clear()
      modifies this
      ensures View() == Terminal.Clear(old(View())) && peak == old(peak)
    {
      ClearLines(0, |lines|);
      cursorX, cursorY, viewportOffset, fullRepaint := 0, 0, 0, true;
    }

    // ---- parser callbacks ----

    method Print(c: char)
      requires Ok()
      modifies this
      ensures View() == StepPrint(old(View()), c) && Ok()
    {
      PrintValid(View(), c);
      ResetView();
      ScrollIfCursorPastBottom();
      WrapPending();
      PutCell(c);
    }

    /** The next character carries out a pending wrap. */
    method WrapPending()
      requires Ok()
      modifies this
      ensures View() == Wrap(old(View())) && Ok() && cursorX < cols
    {
      WrapValid(View());
      if cursorX >= cols {
        cursorX := 0;
        cursorY := cursorY + 1;
        ScrollIfCursorPastBottom();
      }
    }

    method PutCell(c: char)
      requires Ok()
      modifies this`lines, this`cursorX
      ensures View() == Terminal.PutCell(old(View()), c)
    {
      var line := lines[cursorY];
      if cursorX < |line.cells| {
        lines := lines[cursorY := Line(line.cells[cursorX := Cell(c, currentAttrs)], true)];
        cursorX := cursorX + 1;
      }
    }

    method Execute(byte: nat)
      requires Ok()
      modifies this
      ensures View() == StepExecute(old(View()), byte) && Ok()
    {
      ExecuteValid(View(), byte);
      ResetView();
      if byte == 10 {
        cursorY := cursorY + 1;
        ScrollIfCursorPastBottom();
      } else if byte == 13 {
        cursorX := 0;
      } else if byte == 8 && cursorX > 0 {
        cursorX := cursorX - 1;
      }
    }

    method EraseInDisplay(mode: nat)
      requires Ok() && (mode == 1 ==> cursorX < cols)
      modifies this
      ensures View() == EraseDisplay(old(View()), mode) && peak == old(peak)
    {
      if mode == 0 {
        EraseRow(cursorY, cursorX, cols, currentAttrs);
        ClearLines(cursorY + 1, rows);
      } else if mode == 1 {
        ClearLines(0, cursorY);
        EraseRow(cursorY, 0, cursorX + 1, currentAttrs);
      } else if mode == 2 {
        Clear();
      }
    }

    method EraseInLine(mode: nat)
      requires Ok() && (mode == 1 ==> cursorX < cols)
      modifies this`lines
      ensures View() == EraseLine(old(View()), mode)
    {
      if mode == 0 {
        EraseRow(cursorY, cursorX, cols, currentAttrs);
      } else if mode == 1 {
        EraseRow(cursorY, 0, cursorX + 1, currentAttrs);
      } else if mode == 2 {
        EraseRow(cursorY, 0, cols, currentAttrs);
      }
      lines := lines[cursorY := lines[cursorY].(dirty := true)];
    }

    method SetScrollRegion(params: seq<nat>)
      requires Ok()
      modifies this`scrollTop, this`scrollBottom
      ensures View() == SetMargins(old(View()), params)
    {
      var top := PosIndex(params, 0);
      var bottomRaw := if |params| > 1 then params[1] else 0;
      var bottom := if bottomRaw == 0 then rows - 1 else Min(bottomRaw - 1, rows - 1);
      top := Min(top, rows - 1);
      if top < bottom {
        scrollTop, scrollBottom := top, bottom;
      }
    }

    method SelectGraphicRendition(params: seq<nat>)
      modifies this`currentAttrs
      ensures currentAttrs == Sgr(old(currentAttrs), params)
    {
      var i := 0;
      while i < |params|
        invariant i <= |params| && currentAttrs == Sgr(old(currentAttrs), params[..i])
      {
        currentAttrs := SgrOne(currentAttrs, params[i]);
        assert params[..i + 1][..i] == params[..i];
        i := i + 1;
      }
      assert params[..i] == params;
    }

    /** Cursor motion, margins and rendition. */
    method DispatchMove(params: seq<nat>, final: char)
      requires Ok()
      modifies this`cursorX, this`cursorY, this`scrollTop, this`scrollBottom, this`currentAttrs
      ensures View() == MoveCsi(old(View()), params, final)
    {
      var n := MoveCount(params);
      match final {
        case 'A' => cursorY := if n < cursorY then cursorY - n else 0;
        case 'B' => cursorY := Min(cursorY + n, rows - 1);
        case 'C' => cursorX := Min(cursorX + n, cols - 1);
        case 'D' => cursorX := if n < cursorX then cursorX - n else 0;
        case 'd' => cursorY := Min(PosIndex(params, 0), rows - 1);
        case 'r' => SetScrollRegion(params);
        case 'm' => SelectGraphicRendition(params);
        case _ =>
          if final == 'H' || final == 'f' {
            cursorY := Min(PosIndex(params, 0), rows - 1);
            cursorX := Min(PosIndex(params, 1), cols - 1);
          }
      }
    }

    method CsiDispatch(params: seq<nat>, plain: bool, final: char)
      requires Ok() && Defined(View(), Action.Csi(params, plain, final))
      modifies this
      ensures View() == Step(old(View()), Action.Csi(params, plain, final)) && Ok()
    {
      if !plain {
        return;
      }
      CsiValid(View(), params, final);
      match final {
        case 'J' => EraseInDisplay(EraseMode(params));
        case 'K' => EraseInLine(EraseMode(params));
        case 'X' => EraseRow(cursorY, cursorX, Min(cursorX + MoveCount(params), |lines[cursorY].cells|), currentAttrs);
        case 'S' => ScrollRegionUp(MoveCount(params));
        case _ => DispatchMove(params, final);
      }
    }

    // ---- overlays ----

    method ReplaceOverlay(text: string)
      modifies this`overlay, this`fullRepaint
      ensures View() == Replaced(old(View()), text)
    {
      if overlay.Some? && overlay != Some(text) {
        fullRepaint := true;
      }
      overlay := Some(text);
    }

    method ShowOverlay(text: string)
      modifies this`overlay, this`overlayRestore, this`overlayDeadline, this`fullRepaint
      ensures View() == Terminal.ShowOverlay(old(View()), text)
    {
      overlayRestore := Some(text);
      ReplaceOverlay(text);
      overlayDeadline := None;
    }

    method ShowTimedOverlay(text: string, now: nat, duration: nat)
      modifies this`overlay, this`overlayDeadline, this`fullRepaint
      ensures View() == ShowTimed(old(View()), text, now, duration)
    {
      ReplaceOverlay(text);
      overlayDeadline := Some(if now + duration > MAX_U64 then MAX_U64 else now + duration);
    }

    method ClearOverlay()
      modifies this`overlay, this`overlayRestore, this`overlayDeadline, this`fullRepaint
      ensures View() == Terminal.ClearOverlay(old(View()))
    {
      overlayRestore, overlayDeadline := None, None;
      if overlay.Some? {
        fullRepaint := true;
      }
      overlay := None;
    }

    method TickOverlay(now: nat)
      modifies this`overlay, this`overlayRestore, this`overlayDeadline, this`fullRepaint
      ensures View() == Terminal.TickOverlay(old(View()), now)
    {
      if overlayDeadline.None? || now < overlayDeadline.value {
        return;
      }
      overlayDeadline := None;
      if overlayRestore.Some? {
        overlay := overlayRestore;
        fullRepaint := true;
      } else {
        ClearOverlay();
      }
    }
  }
}
