/** What every step keeps: the geometry, the heap budget, the scrolled-off history, and
    the marks that tell the painter what to redraw. */
module TerminalProofs {
  import opened Terminal

  // ---- geometry ----

  /** `Valid` but for the cursor, which a line feed moves past the last row for a moment. */
  ghost predicate Grid(m: Screen) {
    && 1 <= m.rows && 1 <= m.cols
    && |m.lines| == m.rows
    && Rectangular(m.lines, m.cols) && Rectangular(m.scrollback, m.cols)
    && m.top <= m.bottom < m.rows
    && m.viewport <= |m.scrollback| <= m.maxScrollback
  }

  lemma CappedRectangular(rows: seq<Line>, cap: nat, cols: nat)
    requires Rectangular(rows, cols)
    ensures Rectangular(Capped(rows, cap), cols)
  {
  }

  lemma ScrollUpGrid(m: Screen)
    requires Grid(m)
    ensures Grid(ScrollUp(m))
  {
    CappedRectangular(m.scrollback + [m.lines[0]], m.maxScrollback, m.cols);
  }

  lemma ScrollIfPastValid(m: Screen)
    requires Grid(m) && m.x <= m.cols && m.y <= m.rows
    ensures Valid(ScrollIfPast(m)) && ScrollIfPast(m).x == m.x
  {
    if m.y >= m.rows {
      ScrollUpGrid(m);
    }
  }

  lemma WrapValid(m: Screen)
    requires Valid(m)
    ensures Valid(Wrap(m)) && Wrap(m).x < m.cols
  {
    if m.x >= m.cols {
      ScrollIfPastValid(m.(x := 0, y := m.y + 1));
    }
  }

  lemma PutCellValid(m: Screen, c: char)
    requires Valid(m)
    ensures Valid(PutCell(m, c))
  {
  }

  lemma PrintValid(m: Screen, c: char)
    requires Valid(m)
    ensures Valid(StepPrint(m, c)) && StepPrint(m, c).rows == m.rows && StepPrint(m, c).cols == m.cols
  {
    var v := ResetView(m);
    assert ScrollIfPast(v) == v;
    WrapValid(v);
    PutCellValid(Wrap(v), c);
  }

  lemma ExecuteValid(m: Screen, byte: nat)
    requires Valid(m)
    ensures Valid(StepExecute(m, byte))
    ensures StepExecute(m, byte).rows == m.rows && StepExecute(m, byte).cols == m.cols
  {
    var v := ResetView(m);
    if byte == 10 {
      ScrollIfPastValid(v.(y := v.y + 1));
    }
  }

  lemma EraseInValid(m: Screen, start: nat, end: nat)
    requires Valid(m) && start <= end <= m.cols
    ensures Valid(EraseIn(m, start, end))
  {
  }

  lemma EraseDisplayValid(m: Screen, mode: nat)
    requires Valid(m) && (mode == 1 ==> m.x < m.cols)
    ensures Valid(EraseDisplay(m, mode))
  {
    if mode == 0 {
      EraseInValid(m, m.x, m.cols);
    } else if mode == 1 {
      EraseInValid(m.(lines := ClearRows(m.lines, 0, m.y)), 0, m.x + 1);
    }
  }

  lemma ScrollRegionValid(m: Screen, n: nat)
    requires Valid(m)
    ensures Valid(ScrollRegionUp(m, n))
  {
    CappedRectangular(m.scrollback + RegionEvicts(m, n), m.maxScrollback, m.cols);
  }

  /** Only the cursor, the margins and the rendition differ. */
  predicate OnlyMoved(m: Screen, m': Screen) {
    && m'.lines == m.lines && m'.scrollback == m.scrollback
    && m'.viewport == m.viewport && m'.maxScrollback == m.maxScrollback
    && m'.rows == m.rows && m'.cols == m.cols
    && m'.fullRepaint == m.fullRepaint && m'.overlay == m.overlay
  }

  predicate InBounds(m: Screen) {
    1 <= m.rows && 1 <= m.cols && m.y < m.rows && m.x <= m.cols && m.top <= m.bottom < m.rows
  }

  lemma SetMarginsMoves(m: Screen, params: seq<nat>)
    requires InBounds(m)
    ensures MovedWithin(m, SetMargins(m, params))
  {
  }

  /** The cursor, margins or rendition moved and stayed in bounds. */
  predicate MovedWithin(m: Screen, m': Screen) {
    OnlyMoved(m, m') && m'.y < m.rows && m'.x <= m.cols && m'.top <= m'.bottom < m.rows
  }

  lemma ArrowMoves(m: Screen, n: nat, final: char)
    requires InBounds(m)
    ensures MovedWithin(m, Arrow(m, n, final))
  {
  }

  lemma MoveCsiMoves(m: Screen, params: seq<nat>, final: char)
    requires InBounds(m)
    ensures MovedWithin(m, MoveCsi(m, params, final))
  {
    SetMarginsMoves(m, params);
    ArrowMoves(m, MoveCount(params), final);
  }

  lemma CsiValid(m: Screen, params: seq<nat>, final: char)
    requires Valid(m)
    requires (final == 'J' || final == 'K') && EraseMode(params) == 1 ==> m.x < m.cols
    ensures Valid(StepCsi(m, params, final))
    ensures StepCsi(m, params, final).rows == m.rows && StepCsi(m, params, final).cols == m.cols
  {
    match final
    case 'J' => EraseDisplayValid(m, EraseMode(params));
    case 'K' => EraseLineValid(m, EraseMode(params));
    case 'X' => EraseInValid(m, m.x, Min(m.x + MoveCount(params), m.cols));
    case 'S' => ScrollRegionValid(m, MoveCount(params));
    case _ => MoveCsiMoves(m, params, final);
  }

  lemma EraseLineValid(m: Screen, mode: nat)
    requires Valid(m) && (mode == 1 ==> m.x < m.cols)
    ensures Valid(EraseLine(m, mode))
  {
  }

  lemma OverlayValid(m: Screen, a: Action)
    requires Valid(m) && (a.Show? || a.Timed? || a.Tick? || a.Hide?)
    ensures Valid(Step(m, a)) && Step(m, a) == m.(overlay := Step(m, a).overlay, fullRepaint := Step(m, a).fullRepaint)
  {
  }

  lemma ViewValid(m: Screen, a: Action)
    requires Valid(m) && (a.ViewUp? || a.ViewDown? || a.ViewReset? || a.ClearScreen? || a.Limit?)
    ensures Valid(Step(m, a)) && Step(m, a).rows == m.rows && Step(m, a).cols == m.cols
  {
    if a.Limit? {
      CappedRectangular(m.scrollback, Min(a.max, a.safe), m.cols);
    }
  }

  /** Every step keeps the geometry. */
  lemma StepValid(m: Screen, a: Action)
    requires Valid(m) && Defined(m, a)
    ensures Valid(Step(m, a)) && Step(m, a).rows == m.rows && Step(m, a).cols == m.cols
  {
    match a
    case Print(c) => PrintValid(m, c);
    case Execute(byte) => ExecuteValid(m, byte);
    case Csi(params, plain, final) => if plain { CsiValid(m, params, final); }
    case _ =>
      if a.Show? || a.Timed? || a.Tick? || a.Hide? { OverlayValid(m, a); } else { ViewValid(m, a); }
  }

  /** The one undefined step is reachable: filling a row leaves the cursor past its end, and
      an erase up to and including the cursor then has no cell to end at. */
  lemma PendingWrapIsReachable(m: Screen, c: char)
    requires Valid(m) && m.x + 1 == m.cols && m.viewport == 0
    ensures Step(m, Print(c)).x == m.cols && !Defined(Step(m, Print(c)), Csi([1], true, 'K'))
  {
  }

  /** And exactly then: on every screen, an erase up to the cursor ends, one past it, inside
      its row just where the step is defined. */
  lemma EraseEndsInRowIff(m: Screen, a: Action)
    requires Valid(m) && NeedsCell(a)
    ensures m.x + 1 <= |m.lines[m.y].cells| <==> Defined(m, a)
  {
  }

  // ---- heap budget ----

  /** While no more lines are held than fit the screen and a safe scrollback, they fit the
      budget, provided the screen and one line more do. */
  lemma WithinHeapBudget(z: Sizes, rows: nat, cols: nat, held: nat)
    requires held <= rows + SafeMaxScrollback(z, cols, rows)
    requires (rows + 1) * BytesPerLine(z, cols) <= SCREEN_HEAP_BUDGET_BYTES
    ensures held * BytesPerLine(z, cols) <= SCREEN_HEAP_BUDGET_BYTES
  {
    var b := BytesPerLine(z, cols);
    var left := SCREEN_HEAP_BUDGET_BYTES - b * rows;
    assert (rows + 1) * b == b * rows + b;
    assert left >= b;
    var s := SafeMaxScrollback(z, cols, rows);
    assert s == left / b by { DivAtLeastOne(left, b); }
    assert s * b <= left;
    MulMonotone(held, rows + s, b);
    assert (rows + s) * b == b * rows + s * b;
  }

  /** And the safe scrollback is the largest such: one line more would be too many. */
  lemma SafeIsLargest(z: Sizes, rows: nat, cols: nat)
    ensures (rows + SafeMaxScrollback(z, cols, rows) + 1) * BytesPerLine(z, cols) > SCREEN_HEAP_BUDGET_BYTES
  {
    var b := BytesPerLine(z, cols);
    var s := SafeMaxScrollback(z, cols, rows);
    var left := if SCREEN_HEAP_BUDGET_BYTES > b * rows then SCREEN_HEAP_BUDGET_BYTES - b * rows else 0;
    assert s >= left / b;
    OneMoreIsTooMany(left, b);
    MulMonotone(left / b + 1, s + 1, b);
    assert (rows + s + 1) * b == b * rows + (s + 1) * b;
  }

  lemma OneMoreIsTooMany(a: int, b: nat)
    requires b > 0
    ensures (a / b + 1) * b > a
  {
    assert a == b * (a / b) + a % b;
    assert (a / b + 1) * b == b * (a / b) + b;
  }

  lemma DivAtLeastOne(a: nat, b: nat)
    requires 0 < b <= a
    ensures a / b >= 1
  {
    assert a == b * (a / b) + a % b;
  }

  lemma MulMonotone(a: nat, b: nat, c: nat)
    requires a <= b
    ensures a * c <= b * c
  {
  }

  // ---- scrolled-off rows ----

  /** The rows a step scrolls off row 0, oldest first. */
  function Evicts(m: Screen, a: Action): seq<Line>
    requires Valid(m)
  {
    match a
    case Print(_) => if m.x >= m.cols && m.y + 1 == m.rows then [m.lines[0]] else []
    case Execute(byte) => if byte == 10 && m.y + 1 == m.rows then [m.lines[0]] else []
    case Csi(params, plain, final) => if plain && final == 'S' then RegionEvicts(m, MoveCount(params)) else []
    case _ => []
  }

  /** The rows `step` adds to the scrollback are the ones it scrolls off; newest rows kept. */
  ghost predicate Grows(m: Screen, m': Screen, evicted: seq<Line>) {
    && m'.scrollback == Capped(m.scrollback + evicted, m.maxScrollback)
    && m'.maxScrollback == m.maxScrollback
  }

  lemma UnchangedGrows(m: Screen, m': Screen)
    requires |m.scrollback| <= m.maxScrollback
    requires m'.scrollback == m.scrollback && m'.maxScrollback == m.maxScrollback
    ensures Grows(m, m', [])
  {
    assert m.scrollback + [] == m.scrollback;
  }

  lemma PrintGrows(m: Screen, c: char)
    requires Valid(m)
    ensures Grows(m, StepPrint(m, c), Evicts(m, Print(c)))
  {
    var v := ResetView(m);
    assert ScrollIfPast(v) == v;
    WrapValid(v);
    if !(m.x >= m.cols && m.y + 1 == m.rows) {
      UnchangedGrows(m, StepPrint(m, c));
    }
  }

  lemma CsiGrows(m: Screen, params: seq<nat>, final: char)
    requires Valid(m)
    requires (final == 'J' || final == 'K') && EraseMode(params) == 1 ==> m.x < m.cols
    ensures Grows(m, StepCsi(m, params, final), Evicts(m, Csi(params, true, final)))
  {
    var m' := StepCsi(m, params, final);
    match final
    case 'S' => assert m.scrollback + [] == m.scrollback;
    case 'J' => assert m'.scrollback == m.scrollback; UnchangedGrows(m, m');
    case 'K' => UnchangedGrows(m, m');
    case 'X' => UnchangedGrows(m, m');
    case _ => MoveCsiMoves(m, params, final); UnchangedGrows(m, m');
  }

  lemma ScrollbackGrows(m: Screen, a: Action)
    requires Valid(m) && Defined(m, a) && !a.Limit?
    ensures Grows(m, Step(m, a), Evicts(m, a))
  {
    if a.Print? {
      PrintGrows(m, a.c);
    } else if a.Execute? {
      if !(a.byte == 10 && m.y + 1 == m.rows) { UnchangedGrows(m, Step(m, a)); }
    } else if a.Csi? {
      if a.plain { CsiGrows(m, a.params, a.final); } else { UnchangedGrows(m, m); }
    } else {
      assert Step(m, a).scrollback == m.scrollback;
      UnchangedGrows(m, Step(m, a));
    }
  }

  // ---- the same, without the marks ----

  function CellsOf(lines: seq<Line>): (r: seq<Cells>)
    ensures |r| == |lines| && forall i :: 0 <= i < |r| ==> r[i] == lines[i].cells
  {
    seq(|lines|, i requires 0 <= i < |lines| => lines[i].cells)
  }

  lemma CellsJoin(a: seq<Line>, b: seq<Line>)
    ensures CellsOf(a + b) == CellsOf(a) + CellsOf(b)
  {
  }

  lemma CellsCapped(lines: seq<Line>, cap: nat)
    ensures CellsOf(Capped(lines, cap)) == Capped(CellsOf(lines), cap)
  {
  }

  lemma CappedNothing<T>(a: seq<T>, cap: nat)
    requires |a| <= cap
    ensures Capped(a + [], cap) == a
  {
    assert a + [] == a;
  }

  lemma CappedAgain<T>(a: seq<T>, b: seq<T>, cap: nat)
    ensures Capped(Capped(a, cap) + b, cap) == Capped(a + b, cap)
  {
  }

  /** The cells `history` holds once `more` has joined it, given that `m'` adds just those. */
  lemma HistoryGrows(m: Screen, m': Screen, evicted: seq<Line>, history: seq<Cells>)
    requires Grows(m, m', evicted) && CellsOf(m.scrollback) == Capped(history, m.maxScrollback)
    ensures CellsOf(m'.scrollback) == Capped(history + CellsOf(evicted), m'.maxScrollback)
  {
    CellsJoin(m.scrollback, evicted);
    CellsCapped(m.scrollback + evicted, m.maxScrollback);
    CappedAgain(history, CellsOf(evicted), m.maxScrollback);
  }

  // ---- what the painter shows ----

  /** The visible rows: a window of the scrollback followed by the lines. */
  function Window(m: Screen): (w: seq<Line>)
    requires m.viewport <= |m.scrollback| && |m.lines| == m.rows
    ensures |w| == m.rows
  {
    (m.scrollback + m.lines)[|m.scrollback| - m.viewport..][..m.rows]
  }

  /** The painter's own row choice, by absolute index. */
  function VisibleRow(m: Screen, y: nat): Line
    requires |m.lines| == m.rows && y < m.rows && m.viewport <= |m.scrollback|
  {
    if m.viewport > 0 then
      var total := |m.scrollback| + m.rows;
      var viewStart := if total - m.rows > m.viewport then total - m.rows - m.viewport else 0;
      var index := viewStart + y;
      if index < |m.scrollback| then m.scrollback[index] else m.lines[index - |m.scrollback|]
    else m.lines[y]
  }

  lemma VisibleRowIsWindow(m: Screen, y: nat)
    requires |m.lines| == m.rows && y < m.rows && m.viewport <= |m.scrollback|
    ensures VisibleRow(m, y) == Window(m)[y]
  {
  }

  /** A change the painter can follow: unless a full repaint is asked for, each visible row
      is the same or marked dirty, and a shown overlay is the same. */
  ghost predicate Followed(m: Screen, m': Screen)
    requires m.viewport <= |m.scrollback| && |m.lines| == m.rows
    requires m'.viewport <= |m'.scrollback| && |m'.lines| == m'.rows
  {
    !m'.fullRepaint ==>
      && !m.fullRepaint && m'.rows == m.rows
      && (forall y :: 0 <= y < m.rows ==> Window(m')[y] == Window(m)[y] || Window(m')[y].dirty)
      && (m.overlay.shown.None? || m'.overlay.shown == m.overlay.shown)
  }

  /** Rows changed in place are marked dirty. */
  ghost predicate Marked(lines: seq<Line>, lines': seq<Line>) {
    && |lines'| == |lines|
    && forall i :: 0 <= i < |lines| ==> lines'[i] == lines[i] || lines'[i].dirty
  }

  lemma MarkedIsFollowed(m: Screen, m': Screen)
    requires Grid(m) && Grid(m') && Marked(m.lines, m'.lines)
    requires m'.rows == m.rows && m'.scrollback == m.scrollback && m'.viewport == m.viewport
    requires m'.overlay == m.overlay && m'.fullRepaint == m.fullRepaint
    ensures Followed(m, m')
  {
    forall y | 0 <= y < m.rows
      ensures Window(m')[y] == Window(m)[y] || Window(m')[y].dirty
    {
      VisibleRowIsWindow(m, y);
      VisibleRowIsWindow(m', y);
    }
  }

  lemma FollowedTrans(a: Screen, b: Screen, c: Screen)
    requires Grid(a) && Grid(b) && Grid(c) && Followed(a, b) && Followed(b, c)
    ensures Followed(a, c)
  {
  }

  lemma ResetFollowed(m: Screen)
    requires Valid(m)
    ensures Valid(ResetView(m)) && Followed(m, ResetView(m))
  {
  }

  /** Text output never leaves a row changed and unmarked. */
  lemma PrintFollowed(m: Screen, c: char)
    requires Valid(m)
    ensures Followed(m, StepPrint(m, c))
  {
    var v := ResetView(m);
    ResetFollowed(m);
    assert ScrollIfPast(v) == v;
    WrapValid(v);
    var w := Wrap(v);
    assert Followed(v, w) by {
      if !w.fullRepaint {
        assert w.lines == v.lines && w.scrollback == v.scrollback;
        MarkedIsFollowed(v, w);
      }
    }
    PutCellValid(w, c);
    MarkedIsFollowed(w, PutCell(w, c));
    FollowedTrans(m, v, w);
    FollowedTrans(m, w, PutCell(w, c));
  }

  lemma ExecuteFollowed(m: Screen, byte: nat)
    requires Valid(m)
    ensures Valid(StepExecute(m, byte)) && Followed(m, StepExecute(m, byte))
  {
    var v, m' := ResetView(m), StepExecute(m, byte);
    ResetFollowed(m);
    ExecuteValid(m, byte);
    if !m'.fullRepaint {
      MarkedIsFollowed(v, m');
    }
    FollowedTrans(m, v, m');
  }

  lemma CsiFollowed(m: Screen, params: seq<nat>, final: char)
    requires Valid(m)
    requires (final == 'J' || final == 'K') && EraseMode(params) == 1 ==> m.x < m.cols
    ensures Valid(StepCsi(m, params, final)) && Followed(m, StepCsi(m, params, final))
  {
    var m' := StepCsi(m, params, final);
    CsiValid(m, params, final);
    match final
    case 'J' => EraseDisplayFollowed(m, EraseMode(params));
    case 'K' => MarkedIsFollowed(m, m');
    case 'X' => MarkedIsFollowed(m, m');
    case 'S' => if m'.fullRepaint == m.fullRepaint == false { MarkedIsFollowed(m, m); }
    case _ => MoveCsiMoves(m, params, final); MarkedIsFollowed(m, m');
  }

  lemma EraseDisplayFollowed(m: Screen, mode: nat)
    requires Valid(m) && (mode == 1 ==> m.x < m.cols)
    ensures Valid(EraseDisplay(m, mode)) && Followed(m, EraseDisplay(m, mode))
  {
    var m' := EraseDisplay(m, mode);
    EraseDisplayValid(m, mode);
    if mode != 2 {
      assert Marked(m.lines, m'.lines);
      MarkedIsFollowed(m, m');
    }
  }

  /** Lowering the cap can be followed exactly when the viewport is not clamped. */
  predicate KeepsView(m: Screen, a: Action) {
    a.Limit? ==> m.viewport <= Min(a.max, a.safe) || m.fullRepaint
  }

  lemma LimitFollowed(m: Screen, max: nat, safe: nat)
    requires Valid(m) && KeepsView(m, Limit(max, safe))
    ensures Valid(SetMaxScrollback(m, max, safe)) && Followed(m, SetMaxScrollback(m, max, safe))
  {
    StepValid(m, Limit(max, safe));
    var m' := SetMaxScrollback(m, max, safe);
    if !m'.fullRepaint {
      forall y | 0 <= y < m.rows
        ensures Window(m')[y] == Window(m)[y]
      {
        VisibleRowIsWindow(m, y);
        VisibleRowIsWindow(m', y);
      }
    }
  }

  lemma FirstRow(m: Screen)
    requires m.viewport <= |m.scrollback| && |m.lines| == m.rows >= 1
    ensures Window(m)[0] == (m.scrollback + m.lines)[|m.scrollback| - m.viewport]
  {
  }

  lemma FirstOfRest<T>(a: seq<T>, b: seq<T>, k: nat)
    requires k <= |a| && b != []
    ensures (a[k..] + b)[0] == (a + b)[k]
  {
  }

  lemma Clamped(m: Screen, max: nat, safe: nat)
    requires Min(max, safe) < m.viewport <= |m.scrollback|
    ensures var m', cap := SetMaxScrollback(m, max, safe), Min(max, safe);
            && m'.scrollback == m.scrollback[|m.scrollback| - cap..] && m'.viewport == cap
            && m'.lines == m.lines && m'.rows == m.rows && m'.fullRepaint == m.fullRepaint
  {
  }

  /** The first visible row once the viewport is clamped to the new cap. */
  lemma ClampedWindow(m: Screen, m': Screen, cap: nat)
    requires |m.lines| == m.rows >= 1 && cap < m.viewport <= |m.scrollback|
    requires m'.scrollback == m.scrollback[|m.scrollback| - cap..] && m'.viewport == cap
    requires m'.lines == m.lines && m'.rows == m.rows
    ensures Window(m')[0] == (m.scrollback + m.lines)[|m.scrollback| - cap]
  {
    FirstRow(m');
    FirstOfRest(m.scrollback, m.lines, |m.scrollback| - cap);
  }

  /** No two rows look alike, and none waits to be painted. */
  ghost predicate RowsTellApart(rows: seq<Line>) {
    && (forall i :: 0 <= i < |rows| ==> !rows[i].dirty)
    && (forall i, j :: 0 <= i < j < |rows| ==> Apart(rows, i, j))
  }

  predicate Apart(rows: seq<Line>, i: nat, j: nat)
    requires i < |rows| && j < |rows|
  {
    rows[i] != rows[j]
  }

  lemma ApartAt(rows: seq<Line>, i: nat, j: nat)
    requires RowsTellApart(rows) && i < j < |rows|
    ensures rows[i] != rows[j] && !rows[j].dirty
  {
    assert Apart(rows, i, j);
  }

  lemma FirstRowMissed(m: Screen, m': Screen)
    requires m.viewport <= |m.scrollback| && |m.lines| == m.rows >= 1
    requires m'.viewport <= |m'.scrollback| && |m'.lines| == m'.rows == m.rows
    requires !m'.fullRepaint && Window(m')[0] != Window(m)[0] && !Window(m')[0].dirty
    ensures !Followed(m, m')
  {
  }

  lemma ClampIsMissed(m: Screen, max: nat, safe: nat)
    requires |m.lines| == m.rows >= 1 && Min(max, safe) < m.viewport <= |m.scrollback| && !m.fullRepaint
    requires RowsTellApart(m.scrollback + m.lines)
    ensures var m' := SetMaxScrollback(m, max, safe);
            m'.viewport <= |m'.scrollback| && |m'.lines| == m'.rows && !Followed(m, m')
  {
    var m', cap := SetMaxScrollback(m, max, safe), Min(max, safe);
    Clamped(m, max, safe);
    FirstRow(m);
    ClampedWindow(m, m', cap);
    ApartAt(m.scrollback + m.lines, |m.scrollback| - m.viewport, |m.scrollback| - cap);
    FirstRowMissed(m, m');
  }

  /** The condition is exact: wherever the rows can be told apart, a change of the cap is
      followed if and only if it holds. */
  lemma LimitFollowedIff(m: Screen, max: nat, safe: nat)
    requires Valid(m) && RowsTellApart(m.scrollback + m.lines)
    ensures Valid(SetMaxScrollback(m, max, safe))
    ensures Followed(m, SetMaxScrollback(m, max, safe)) <==> KeepsView(m, Limit(max, safe))
  {
    StepValid(m, Limit(max, safe));
    if KeepsView(m, Limit(max, safe)) {
      LimitFollowed(m, max, safe);
    } else {
      ClampIsMissed(m, max, safe);
    }
  }

  /** Every step can be followed by the incremental painter, lowering the scrollback cap
      under a scrolled-back viewport aside. */
  lemma StepFollowed(m: Screen, a: Action)
    requires Valid(m) && Defined(m, a) && KeepsView(m, a)
    ensures Valid(Step(m, a)) && Followed(m, Step(m, a))
  {
    StepValid(m, a);
    match a
    case Print(c) => PrintFollowed(m, c);
    case Execute(byte) => ExecuteFollowed(m, byte);
    case Csi(params, plain, final) =>
      if plain { CsiFollowed(m, params, final); } else { MarkedIsFollowed(m, m); }
    case Limit(max, safe) => LimitFollowed(m, max, safe);
    case ViewReset => ResetFollowed(m);
    case _ => OverlayFollowed(m, a);
  }

  /** Overlay changes that must erase an old box, and view changes, repaint everything. */
  lemma OverlayFollowed(m: Screen, a: Action)
    requires Valid(m) && !a.Print? && !a.Execute? && !a.Csi? && !a.Limit? && !a.ViewReset?
    ensures Valid(Step(m, a)) && Followed(m, Step(m, a))
  {
    StepValid(m, a);
    if a.Show? || a.Timed? || a.Tick? || a.Hide? {
      OverlayValid(m, a);
      assert Window(Step(m, a)) == Window(m);
    }
  }
}
