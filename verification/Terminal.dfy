/** What terminal-model/src/screen_model.rs means: the screen as a value and each control
    function, scroll, viewport and overlay operation as a function on it. */
module Terminal {
  import opened Sequences

  datatype Color = DefaultFg | DefaultBg | Indexed(index: nat)

  datatype Attrs = Attrs(fg: Color, bg: Color, bold: bool, underline: bool, reverse: bool)

  const DEFAULT_ATTRS := Attrs(DefaultFg, DefaultBg, false, false, false)

  datatype Cell = Cell(ch: char, attrs: Attrs)

  const BLANK := Cell(' ', DEFAULT_ATTRS)

  type Cells = seq<Cell>

  /** A row and whether it changed since it was last painted. */
  datatype Line = Line(cells: Cells, dirty: bool)

  function BlankCells(cols: nat): (r: Cells)
    ensures |r| == cols && forall i :: 0 <= i < cols ==> r[i] == BLANK
  {
    seq(cols, i => BLANK)
  }

  function BlankLine(cols: nat): Line {
    Line(BlankCells(cols), true)
  }

  function BlankLines(n: nat, cols: nat): (r: seq<Line>)
    ensures |r| == n && forall i :: 0 <= i < n ==> r[i] == BlankLine(cols)
  {
    seq(n, i => BlankLine(cols))
  }

  /** The overlay box: its text, the untimed text a timed one covers, and the deadline. */
  datatype Overlay = Overlay(shown: Option<string>, restore: Option<string>, deadline: Option<nat>)

  datatype Screen = Screen(
    lines: seq<Line>, scrollback: seq<Line>, viewport: nat, maxScrollback: nat,
    x: nat, y: nat, attrs: Attrs, rows: nat, cols: nat, top: nat, bottom: nat,
    fullRepaint: bool, overlay: Overlay)

  // ---- heap budget ----

  const SCREEN_HEAP_BUDGET_BYTES: nat := 64 * 1024 - 32 * 1024
  const PER_LINE_ALLOC_OVERHEAD_BYTES: nat := 32

  /** Sizes of the target's types, which the source asks the compiler for. */
  datatype Sizes = Sizes(charBytes: nat, attrBytes: nat, lineBytes: nat)

  function BytesPerLine(z: Sizes, cols: nat): nat {
    (z.charBytes + z.attrBytes) * cols + PER_LINE_ALLOC_OVERHEAD_BYTES + z.lineBytes
  }

  function SafeMaxScrollback(z: Sizes, cols: nat, rows: nat): (n: nat)
    ensures n >= 1
  {
    var perLine := BytesPerLine(z, cols);
    var visible := perLine * rows;
    var left := if SCREEN_HEAP_BUDGET_BYTES > visible then SCREEN_HEAP_BUDGET_BYTES - visible else 0;
    if left / perLine < 1 then 1 else left / perLine
  }

  // ---- geometry ----

  ghost predicate Rectangular(lines: seq<Line>, cols: nat) {
    forall i :: 0 <= i < |lines| ==> |lines[i].cells| == cols
  }

  /** `rows` lines of `cols` cells, the cursor on a row (one past the last column when a
      wrap is pending), ordered margins, the viewport and the scrollback within bounds. */
  ghost predicate Valid(m: Screen) {
    && 1 <= m.rows && 1 <= m.cols
    && |m.lines| == m.rows
    && Rectangular(m.lines, m.cols) && Rectangular(m.scrollback, m.cols)
    && m.y < m.rows && m.x <= m.cols
    && m.top <= m.bottom < m.rows
    && m.viewport <= |m.scrollback| <= m.maxScrollback
  }

  // ---- scrolling ----

  /** The newest `cap` rows. */
  function Capped<T>(rows: seq<T>, cap: nat): (r: seq<T>)
    ensures |r| == if |rows| <= cap then |rows| else cap
  {
    if |rows| <= cap then rows else rows[|rows| - cap..]
  }

  function ScrollUp(m: Screen): Screen
    requires m.lines != []
  {
    m.(lines := m.lines[1..] + [BlankLine(m.cols)],
       scrollback := Capped(m.scrollback + [m.lines[0]], m.maxScrollback),
       fullRepaint := true)
  }

  /** A region of rows moved up by `n`, blank rows following, the rest untouched. */
  function ShiftedUp(lines: seq<Line>, top: nat, bottom: nat, n: nat, cols: nat): (r: seq<Line>)
    requires top + n <= bottom + 1 <= |lines|
    ensures |r| == |lines|
  {
    lines[..top] + lines[top + n..bottom + 1] + BlankLines(n, cols) + lines[bottom + 1..]
  }

  /** Rows a region scroll by `n` pushes into the scrollback: those leaving row 0. */
  function RegionEvicts(m: Screen, n: nat): seq<Line> {
    var k := if n < m.bottom - m.top + 1 then n else m.bottom - m.top + 1;
    if m.top < m.bottom && m.top == 0 && k <= |m.lines| then m.lines[..k] else []
  }

  function ScrollRegionUp(m: Screen, n: nat): Screen
    requires |m.lines| == m.rows && m.bottom < m.rows
  {
    if m.top >= m.bottom then m
    else
      var k := if n < m.bottom - m.top + 1 then n else m.bottom - m.top + 1;
      m.(lines := ShiftedUp(m.lines, m.top, m.bottom, k, m.cols),
         scrollback := Capped(m.scrollback + RegionEvicts(m, n), m.maxScrollback),
         fullRepaint := true)
  }

  function ScrollIfPast(m: Screen): Screen
    requires m.lines != [] && 1 <= m.rows
  {
    if m.y >= m.rows then ScrollUp(m).(y := m.rows - 1) else m
  }

  // ---- viewport ----

  function ScrollViewUp(m: Screen, n: nat): Screen {
    m.(viewport := if m.viewport + n < |m.scrollback| then m.viewport + n else |m.scrollback|,
       fullRepaint := true)
  }

  function ScrollViewDown(m: Screen, n: nat): Screen {
    m.(viewport := if n < m.viewport then m.viewport - n else 0, fullRepaint := true)
  }

  function ResetView(m: Screen): Screen {
    if m.viewport != 0 then m.(viewport := 0, fullRepaint := true) else m
  }

  function SetMaxScrollback(m: Screen, max: nat, safe: nat): Screen {
    var cap := if max < safe then max else safe;
    m.(maxScrollback := cap,
       scrollback := Capped(m.scrollback, cap),
       viewport := if |m.scrollback| > cap && m.viewport > cap then cap else m.viewport)
  }

  // ---- printing ----

  function PutCell(m: Screen, c: char): Screen
    requires m.y < |m.lines|
  {
    var line := m.lines[m.y];
    if m.x < |line.cells| then
      m.(lines := m.lines[m.y := Line(line.cells[m.x := Cell(c, m.attrs)], true)], x := m.x + 1)
    else m
  }

  /** A pending wrap is carried out by the next character. */
  function Wrap(m: Screen): Screen
    requires m.lines != [] && 1 <= m.rows
  {
    if m.x >= m.cols then ScrollIfPast(m.(x := 0, y := m.y + 1)) else m
  }

  function LineFeed(m: Screen): Screen
    requires m.lines != [] && 1 <= m.rows
  {
    ScrollIfPast(m.(y := m.y + 1))
  }

  // ---- erasing ----

  function EraseCells(cells: Cells, start: nat, end: nat, attrs: Attrs): (r: Cells)
    requires start <= end <= |cells|
    ensures |r| == |cells|
    ensures forall i :: 0 <= i < |r| ==> r[i] == if start <= i < end then Cell(' ', attrs) else cells[i]
  {
    seq(|cells|, i requires 0 <= i < |cells| => if start <= i < end then Cell(' ', attrs) else cells[i])
  }

  function EraseIn(m: Screen, start: nat, end: nat): Screen
    requires m.y < |m.lines| && start <= end <= |m.lines[m.y].cells|
  {
    m.(lines := m.lines[m.y := Line(EraseCells(m.lines[m.y].cells, start, end, m.attrs), true)])
  }

  /** Rows `from` up to `to` cleared to default blanks. */
  function ClearRows(lines: seq<Line>, from: nat, to: nat): (r: seq<Line>)
    requires from <= to <= |lines|
    ensures |r| == |lines|
    ensures forall i :: 0 <= i < |r| ==>
              r[i] == if from <= i < to then BlankLine(|lines[i].cells|) else lines[i]
  {
    seq(|lines|, i requires 0 <= i < |lines| =>
      if from <= i < to then BlankLine(|lines[i].cells|) else lines[i])
  }

  function Clear(m: Screen): Screen {
    m.(lines := ClearRows(m.lines, 0, |m.lines|), x := 0, y := 0, viewport := 0, fullRepaint := true)
  }

  function TouchLine(m: Screen): Screen
    requires m.y < |m.lines|
  {
    m.(lines := m.lines[m.y := m.lines[m.y].(dirty := true)])
  }

  function EraseDisplay(m: Screen, mode: nat): Screen
    requires Valid(m) && (mode == 1 ==> m.x < m.cols)
  {
    match mode
    case 0 =>
      var m' := EraseIn(m, m.x, m.cols);
      m'.(lines := ClearRows(m'.lines, m.y + 1, m.rows))
    case 1 => EraseIn(m.(lines := ClearRows(m.lines, 0, m.y)), 0, m.x + 1)
    case 2 => Clear(m)
    case _ => m
  }

  function EraseLine(m: Screen, mode: nat): Screen
    requires Valid(m) && (mode == 1 ==> m.x < m.cols)
  {
    match mode
    case 0 => EraseIn(m, m.x, m.cols)
    case 1 => EraseIn(m, 0, m.x + 1)
    case 2 => EraseIn(m, 0, m.cols)
    case _ => TouchLine(m)
  }

  // ---- control sequences ----

  function Min(a: nat, b: nat): nat { if a < b then a else b }
  function Max(a: nat, b: nat): nat { if a < b then b else a }

  /** First parameter as a count: absent and 0 both mean 1. */
  function MoveCount(params: seq<nat>): (n: nat)
    ensures n >= 1
  {
    if params == [] then 1 else Max(params[0], 1)
  }

  /** A 1-based position parameter as an index; absent and 0 both mean the first. */
  function PosIndex(params: seq<nat>, i: nat): nat {
    if i < |params| then Max(params[i], 1) - 1 else 0
  }

  function EraseMode(params: seq<nat>): nat {
    if params == [] then 0 else params[0]
  }

  function SetMargins(m: Screen, params: seq<nat>): Screen
    requires 1 <= m.rows
  {
    var top := Min(PosIndex(params, 0), m.rows - 1);
    var raw := if |params| > 1 then params[1] else 0;
    var bottom := if raw == 0 then m.rows - 1 else Min(raw - 1, m.rows - 1);
    if top < bottom then m.(top := top, bottom := bottom) else m
  }

  /** One Select Graphic Rendition parameter (section 8.3.117 of ECMA-48). */
  function SgrOne(a: Attrs, p: nat): Attrs {
    if p == 0 then DEFAULT_ATTRS
    else if p == 1 then a.(bold := true)
    else if p == 4 then a.(underline := true)
    else if p == 7 then a.(reverse := true)
    else if p == 22 then a.(bold := false)
    else if p == 24 then a.(underline := false)
    else if p == 27 then a.(reverse := false)
    else if 30 <= p <= 37 then a.(fg := Indexed(p - 30))
    else if p == 39 then a.(fg := DefaultFg)
    else if 40 <= p <= 47 then a.(bg := Indexed(p - 40))
    else if p == 49 then a.(bg := DefaultBg)
    else if 90 <= p <= 97 then a.(fg := Indexed(p - 90 + 8))
    else if 100 <= p <= 107 then a.(bg := Indexed(p - 100 + 8))
    else a
  }

  function Sgr(a: Attrs, params: seq<nat>): Attrs {
    if params == [] then a else SgrOne(Sgr(a, params[..|params| - 1]), params[|params| - 1])
  }

  // ---- overlays ----

  const MAX_U64: nat := 0xFFFF_FFFF_FFFF_FFFF

  function Replaced(m: Screen, text: string): Screen {
    m.(fullRepaint := m.fullRepaint || (m.overlay.shown.Some? && m.overlay.shown != Some(text)),
       overlay := m.overlay.(shown := Some(text)))
  }

  function ShowOverlay(m: Screen, text: string): Screen {
    var m' := Replaced(m, text);
    m'.(overlay := Overlay(Some(text), Some(text), None))
  }

  function ShowTimed(m: Screen, text: string, now: nat, duration: nat): Screen {
    var m' := Replaced(m, text);
    m'.(overlay := m'.overlay.(deadline := Some(Min(now + duration, MAX_U64))))
  }

  function ClearOverlay(m: Screen): Screen {
    m.(fullRepaint := m.fullRepaint || m.overlay.shown.Some?, overlay := Overlay(None, None, None))
  }

  function TickOverlay(m: Screen, now: nat): Screen {
    match m.overlay.deadline
    case None => m
    case Some(deadline) =>
      if now < deadline then m
      else match m.overlay.restore
        case Some(text) => m.(overlay := Overlay(Some(text), Some(text), None), fullRepaint := true)
        case None => ClearOverlay(m)
  }

  // ---- one step ----

  /** Everything that can happen to the screen: parser callbacks (with the first number of
      each parameter; `plain` when nothing is ignored and there are no intermediates), and
      the calls of the rest of the firmware. */
  datatype Action =
    | Print(c: char)
    | Execute(byte: nat)
    | Csi(params: seq<nat>, plain: bool, final: char)
    | ClearScreen
    | ViewUp(n: nat)
    | ViewDown(n: nat)
    | ViewReset
    | Show(text: string)
    | Timed(text: string, now: nat, duration: nat)
    | Tick(now: nat)
    | Hide
    | Limit(max: nat, safe: nat)

  /** An erase up to and including the cursor needs a cell under the cursor. */
  predicate NeedsCell(a: Action) {
    a.Csi? && a.plain && (a.final == 'J' || a.final == 'K') && EraseMode(a.params) == 1
  }

  predicate Defined(m: Screen, a: Action) {
    NeedsCell(a) ==> m.x < m.cols
  }

  function StepExecute(m: Screen, byte: nat): Screen
    requires m.lines != [] && 1 <= m.rows
  {
    var v := ResetView(m);
    if byte == 10 then LineFeed(v)
    else if byte == 13 then v.(x := 0)
    else if byte == 8 && v.x > 0 then v.(x := v.x - 1)
    else v
  }

  function StepPrint(m: Screen, c: char): Screen
    requires Valid(m)
  {
    PutCell(Wrap(ScrollIfPast(ResetView(m))), c)
  }

  function CursorUp(m: Screen, n: nat): Screen {
    m.(y := if n < m.y then m.y - n else 0)
  }

  function CursorDown(m: Screen, n: nat): Screen
    requires 1 <= m.rows
  {
    m.(y := Min(m.y + n, m.rows - 1))
  }

  function CursorForward(m: Screen, n: nat): Screen
    requires 1 <= m.cols
  {
    m.(x := Min(m.x + n, m.cols - 1))
  }

  function CursorBack(m: Screen, n: nat): Screen {
    m.(x := if n < m.x then m.x - n else 0)
  }

  /** Cursor motion by a count (sections 8.3.18 to 8.3.20 and 8.3.22 of ECMA-48). */
  function Arrow(m: Screen, n: nat, final: char): Screen
    requires 1 <= m.rows && 1 <= m.cols
  {
    match final
    case 'A' => CursorUp(m, n)
    case 'B' => CursorDown(m, n)
    case 'C' => CursorForward(m, n)
    case 'D' => CursorBack(m, n)
    case _ => m
  }

  /** Sequences that leave every cell alone: cursor motion, absolute positions (sections
      8.3.21 and 8.3.158 of ECMA-48), margins and rendition. */
  function MoveCsi(m: Screen, params: seq<nat>, final: char): Screen
    requires 1 <= m.rows && 1 <= m.cols
  {
    match final
    case 'H' => MoveTo(m, params)
    case 'f' => MoveTo(m, params)
    case 'd' => m.(y := Min(PosIndex(params, 0), m.rows - 1))
    case 'r' => SetMargins(m, params)
    case 'm' => m.(attrs := Sgr(m.attrs, params))
    case _ => Arrow(m, MoveCount(params), final)
  }

  function MoveTo(m: Screen, params: seq<nat>): Screen
    requires 1 <= m.rows && 1 <= m.cols
  {
    m.(y := Min(PosIndex(params, 0), m.rows - 1), x := Min(PosIndex(params, 1), m.cols - 1))
  }

  /** A control sequence: erasing (sections 8.3.38, 8.3.39 and 8.3.41 of ECMA-48), scrolling
      up (section 8.3.147), or one that only moves. */
  function StepCsi(m: Screen, params: seq<nat>, final: char): Screen
    requires Valid(m)
    requires (final == 'J' || final == 'K') && EraseMode(params) == 1 ==> m.x < m.cols
  {
    match final
    case 'J' => EraseDisplay(m, EraseMode(params))
    case 'K' => EraseLine(m, EraseMode(params))
    case 'X' => EraseIn(m, m.x, Min(m.x + MoveCount(params), m.cols))
    case 'S' => ScrollRegionUp(m, MoveCount(params))
    case _ => MoveCsi(m, params, final)
  }

  function Step(m: Screen, a: Action): Screen
    requires Valid(m) && Defined(m, a)
  {
    match a
    case Print(c) => StepPrint(m, c)
    case Execute(byte) => StepExecute(m, byte)
    case Csi(params, plain, final) => if plain then StepCsi(m, params, final) else m
    case ClearScreen => Clear(m)
    case ViewUp(n) => ScrollViewUp(m, n)
    case ViewDown(n) => ScrollViewDown(m, n)
    case ViewReset => ResetView(m)
    case Show(text) => ShowOverlay(m, text)
    case Timed(text, now, duration) => ShowTimed(m, text, now, duration)
    case Tick(now) => TickOverlay(m, now)
    case Hide => ClearOverlay(m)
    case Limit(max, safe) => SetMaxScrollback(m, max, safe)
  }
}
