/** The incremental painter (`update_display` in src/screen.rs): what one pass draws, and
    that over any run its passes add up to drawing every visible row from scratch. */
module Painter {
  import opened Sequences
  import opened Terminal
  import opened TerminalProofs
  import ScreenModel

  /** What a cell-sized tile of the display shows: a drawn cell or part of an overlay box.
      The box is taller while `recording`, to make room for the level meter. */
  datatype Ink = Unpainted | Glyph(cell: Cell) | Box(text: string, recording: bool)

  type Frame = seq<seq<Ink>>

  /** Which tiles (row, column) the box of an overlay text covers. */
  type Cover = (string, bool, nat, nat) -> bool

  function Glyphs(cells: Cells): (r: seq<Ink>)
    ensures |r| == |cells| && forall x :: 0 <= x < |r| ==> r[x] == Glyph(cells[x])
  {
    seq(|cells|, x requires 0 <= x < |cells| => Glyph(cells[x]))
  }

  // ---- one pass ----

  /** Rows `[from, to)` marked as painted. */
  function CleanRows(lines: seq<Line>, from: nat, to: nat): (r: seq<Line>)
    ensures |r| == |lines|
    ensures forall i :: 0 <= i < |r| ==> r[i] == if from <= i < to then lines[i].(dirty := false) else lines[i]
  {
    seq(|lines|, i requires 0 <= i < |lines| => if from <= i < to then lines[i].(dirty := false) else lines[i])
  }

  /** Row `y` of the window, counted from the oldest scrollback row. */
  function FirstVisible(m: Screen): nat
    requires m.viewport <= |m.scrollback|
  {
    |m.scrollback| - m.viewport
  }

  /** The model once its first `n` visible rows have been painted. */
  function CleanedTo(m: Screen, n: nat): Screen
    requires m.viewport <= |m.scrollback|
  {
    var first := FirstVisible(m);
    m.(scrollback := CleanRows(m.scrollback, first, first + n),
       lines := if first + n > |m.scrollback| then CleanRows(m.lines, 0, first + n - |m.scrollback|) else m.lines)
  }

  function Cleaned(m: Screen): Screen
    requires m.viewport <= |m.scrollback|
  {
    CleanedTo(m, m.rows).(fullRepaint := false)
  }

  ghost predicate Sized(frame: Frame, rows: nat, cols: nat) {
    |frame| == rows && forall y :: 0 <= y < rows ==> |frame[y]| == cols
  }

  /** Dirty rows are redrawn - every row after a full repaint cleared the display. */
  function Drawn(m: Screen, frame: Frame): (r: Frame)
    requires m.viewport <= |m.scrollback| && |m.lines| == m.rows && |frame| == m.rows
    ensures |r| == m.rows
    ensures forall y :: 0 <= y < m.rows ==>
              r[y] == if m.fullRepaint || Window(m)[y].dirty then Glyphs(Window(m)[y].cells) else frame[y]
  {
    seq(m.rows, y requires 0 <= y < m.rows =>
      if m.fullRepaint || Window(m)[y].dirty then Glyphs(Window(m)[y].cells) else frame[y])
  }

  function BoxedRow(row: seq<Ink>, y: nat, text: string, recording: bool, cover: Cover): (r: seq<Ink>)
    ensures |r| == |row|
    ensures forall x :: 0 <= x < |row| ==> r[x] == if cover(text, recording, y, x) then Box(text, recording) else row[x]
  {
    seq(|row|, x requires 0 <= x < |row| => if cover(text, recording, y, x) then Box(text, recording) else row[x])
  }

  /** The overlay box, if any, composited over the rows. */
  function Boxed(frame: Frame, shown: Option<string>, recording: bool, cover: Cover): (r: Frame)
    ensures |r| == |frame|
    ensures forall y :: 0 <= y < |frame| ==>
              r[y] == match shown
                      case None => frame[y]
                      case Some(text) => BoxedRow(frame[y], y, text, recording, cover)
  {
    match shown
    case None => frame
    case Some(text) =>
      seq(|frame|, y requires 0 <= y < |frame| => BoxedRow(frame[y], y, text, recording, cover))
  }

  // ---- the painter's loop ----

  class Display {
    var frame: Frame

    constructor (rows: nat, cols: nat)
      ensures Sized(frame, rows, cols)
    {
      frame := seq(rows, _ => seq(cols, _ => Unpainted));
    }

    /** Fills the whole display, as before a full repaint. */
    method Clear()
      modifies this
      ensures |frame| == |old(frame)|
    {
      frame := seq(|frame|, y requires 0 <= y < |frame| reads this => seq(|frame[y]|, _ => Unpainted));
    }

    /** Draws one row tile by tile. */
    method DrawRow(y: nat, cells: Cells)
      requires y < |frame|
      modifies this
      ensures frame == old(frame)[y := Glyphs(cells)]
    {
      var row: seq<Ink> := [];
      var x := 0;
      while x < |cells|
        invariant x <= |cells| && row == Glyphs(cells[..x])
      {
        row := row + [Glyph(cells[x])];
        x := x + 1;
      }
      assert cells[..x] == cells;
      frame := frame[y := row];
    }
  }

  /** Painting row `y` of the window is one more row cleaned. */
  lemma CleanOne(m: Screen, y: nat)
    requires Grid(m) && y < m.rows
    ensures var i := FirstVisible(m) + y;
            var c := CleanedTo(m, y);
            Window(m)[y] == (if i < |m.scrollback| then c.scrollback[i] else c.lines[i - |m.scrollback|])
    ensures var i := FirstVisible(m) + y;
            var c := CleanedTo(m, y);
            CleanedTo(m, y + 1) ==
              if i < |m.scrollback| then c.(scrollback := c.scrollback[i := Window(m)[y].(dirty := false)])
              else c.(lines := c.lines[i - |m.scrollback| := Window(m)[y].(dirty := false)])
  {
    var i := FirstVisible(m) + y;
    var c, c' := CleanedTo(m, y), CleanedTo(m, y + 1);
    if i < |m.scrollback| {
      assert c'.scrollback == c.scrollback[i := Window(m)[y].(dirty := false)];
    } else {
      assert c'.scrollback == c.scrollback;
      assert c'.lines == c.lines[i - |m.scrollback| := Window(m)[y].(dirty := false)];
    }
  }

  lemma CleanNone(m: Screen)
    requires m.viewport <= |m.scrollback|
    ensures CleanedTo(m, 0) == m
  {
    assert CleanRows(m.scrollback, FirstVisible(m), FirstVisible(m)) == m.scrollback;
  }

  /** A row that is already marked painted stays as it is. */
  lemma CleanAlready(m: Screen, y: nat)
    requires Grid(m) && y < m.rows && !Window(m)[y].dirty
    ensures CleanedTo(m, y + 1) == CleanedTo(m, y)
  {
    CleanOne(m, y);
  }

  /** Row `y` of the window: skipped when clean, else drawn and marked painted. */
  method PaintRow(model: ScreenModel.ScreenModel, display: Display, y: nat, ghost m: Screen)
    requires Grid(m) && y < m.rows && |display.frame| == m.rows && model.View() == CleanedTo(m, y)
    modifies model`lines, model`scrollback, display
    ensures model.View() == CleanedTo(m, y + 1)
    ensures display.frame ==
              if m.fullRepaint || Window(m)[y].dirty then old(display.frame)[y := Glyphs(Window(m)[y].cells)]
              else old(display.frame)
  {
    CleanOne(m, y);
    var viewStart := |model.scrollback| - model.viewportOffset;
    var index := if model.viewportOffset > 0 then viewStart + y else |model.scrollback| + y;
    var line := if index < |model.scrollback| then model.scrollback[index] else model.lines[index - |model.scrollback|];
    if !line.dirty && !model.fullRepaint {
      CleanAlready(m, y);
      return;
    }
    display.DrawRow(y, line.cells);
    if index < |model.scrollback| {
      model.scrollback := model.scrollback[index := line.(dirty := false)];
    } else {
      model.lines := model.lines[index - |model.scrollback| := line.(dirty := false)];
    }
  }

  /** The first `n` rows of a pass drawn over `frame`. */
  function DrawnTo(m: Screen, frame: Frame, n: nat): (r: Frame)
    requires m.viewport <= |m.scrollback| && |m.lines| == m.rows && |frame| == m.rows
    ensures |r| == m.rows
  {
    seq(m.rows, y requires 0 <= y < m.rows =>
      if y < n && (m.fullRepaint || Window(m)[y].dirty) then Glyphs(Window(m)[y].cells) else frame[y])
  }

  lemma DrawnOne(m: Screen, frame: Frame, y: nat)
    requires Grid(m) && |frame| == m.rows && y < m.rows
    ensures DrawnTo(m, frame, y + 1) ==
              if m.fullRepaint || Window(m)[y].dirty then DrawnTo(m, frame, y)[y := Glyphs(Window(m)[y].cells)]
              else DrawnTo(m, frame, y)
  {
  }

  lemma DrawnNone(m: Screen, frame: Frame)
    requires Grid(m) && |frame| == m.rows
    ensures DrawnTo(m, frame, 0) == frame
  {
  }

  lemma DrawnAll(m: Screen, frame: Frame, cleared: Frame)
    requires Grid(m) && |frame| == |cleared| == m.rows
    requires !m.fullRepaint ==> cleared == frame
    ensures DrawnTo(m, cleared, m.rows) == Drawn(m, frame)
  {
  }

  /** Row `y` of a pass that began with `m` over `cleared`. */
  method PaintNext(model: ScreenModel.ScreenModel, display: Display, y: nat, ghost m: Screen, ghost cleared: Frame)
    requires Grid(m) && y < m.rows == |cleared| && model.View() == CleanedTo(m, y)
    requires display.frame == DrawnTo(m, cleared, y)
    modifies model`lines, model`scrollback, display
    ensures model.View() == CleanedTo(m, y + 1)
    ensures display.frame == DrawnTo(m, cleared, y + 1)
  {
    DrawnOne(m, cleared, y);
    PaintRow(model, display, y, m);
  }

  /** Every row of a pass that began with `m` over `cleared`. */
  method PaintAll(model: ScreenModel.ScreenModel, display: Display, ghost m: Screen, ghost cleared: Frame)
    requires Grid(m) && m.rows == |cleared| && model.View() == m && display.frame == cleared
    modifies model`lines, model`scrollback, display
    ensures model.View() == CleanedTo(m, m.rows)
    ensures display.frame == DrawnTo(m, cleared, m.rows)
  {
    CleanNone(m);
    DrawnNone(m, cleared);
    var y := 0;
    while y < model.rows
      invariant y <= m.rows && model.View() == CleanedTo(m, y)
      invariant display.frame == DrawnTo(m, cleared, y)
    {
      PaintNext(model, display, y, m, cleared);
      y := y + 1;
    }
  }

  /** One pass over the rows: clears the display for a full repaint, redraws what needs it. */
  method DrawRows(model: ScreenModel.ScreenModel, display: Display)
    requires model.Ok() && |display.frame| == model.rows
    modifies model`lines, model`scrollback, model`fullRepaint, display
    ensures model.View() == Cleaned(old(model.View()))
    ensures display.frame == Drawn(old(model.View()), old(display.frame))
  {
    ghost var m, shown := model.View(), display.frame;
    if model.fullRepaint {
      display.Clear();
    }
    DrawnAll(m, shown, display.frame);
    PaintAll(model, display, m, display.frame);
    model.fullRepaint := false;
  }

  /** Draws the box over every tile it covers. */
  method DrawOverlay(display: Display, text: string, recording: bool, cover: Cover)
    modifies display
    ensures display.frame == Boxed(old(display.frame), Some(text), recording, cover)
  {
    ghost var before := display.frame;
    var y := 0;
    while y < |display.frame|
      invariant y <= |display.frame| == |before|
      invariant forall k :: 0 <= k < y ==> display.frame[k] == BoxedRow(before[k], k, text, recording, cover)
      invariant forall k :: y <= k < |before| ==> display.frame[k] == before[k]
    {
      display.frame := display.frame[y := BoxedRow(display.frame[y], y, text, recording, cover)];
      y := y + 1;
    }
    assert display.frame == Boxed(before, Some(text), recording, cover);
  }

  /** `Screen::update_display`: lets an expired overlay go, paints, composites the overlay. */
  method UpdateDisplay(model: ScreenModel.ScreenModel, display: Display, now: nat, recording: bool, cover: Cover)
    requires model.Ok() && |display.frame| == model.rows
    modifies model, display
    ensures var m := TickOverlay(old(model.View()), now);
            && model.View() == Cleaned(m)
            && display.frame == Boxed(Drawn(m, old(display.frame)), m.overlay.shown, recording, cover)
  {
    model.TickOverlay(now);
    DrawRows(model, display);
    if model.overlay.Some? {
      DrawOverlay(display, model.overlay.value, recording, cover);
    }
  }
}
