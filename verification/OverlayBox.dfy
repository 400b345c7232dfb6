/** The overlay box of `draw_overlay` (src/screen.rs), pixel by pixel: which pixels it covers,
    and when a change of the recording flag leaves a strip of it on the display. A run of the
    painter is followed at one pixel of every cell, whichever that is. */
module OverlayBox {
  import opened Sequences
  import opened Terminal
  import opened TerminalProofs
  import opened Painter
  import opened PainterTheorems
  import TextWrap

  /** Pixels of a character cell: the font's advance and its height. */
  datatype Font = Font(advance: nat, height: nat)

  /** The overlay's lines, wrapped to the screen less the padding at its sides. */
  function LinesOf(text: string, font: Font): seq<string> {
    TextWrap.WrapAll(TextWrap.SplitLines(text), TextWrap.MaxChars(300, font.advance))
  }

  function Widest(lines: seq<string>): nat {
    if lines == [] then 0 else Max(|lines[0]|, Widest(lines[1..]))
  }

  function BoxWidth(text: string, font: Font): (w: nat)
    ensures w >= 20
  {
    Widest(LinesOf(text, font)) * font.advance + 20
  }

  function StackHeight(lines: nat, font: Font): nat {
    font.height * lines + 16
  }

  /** Without the strip that a recording's level meter takes, 8 pixels and 6 above them. */
  function BoxHeight(text: string, font: Font): (h: nat)
    ensures h >= 16
  {
    StackHeight(|LinesOf(text, font)|, font)
  }

  function MeterHeight(recording: bool): nat {
    if recording then 14 else 0
  }

  /** Where something of this size starts on the 320-pixel screen when centred; the division
      truncates toward zero. */
  function Centred(size: nat): int {
    if size <= 320 then (320 - size) / 2 else -((size - 320) / 2)
  }

  /** The box never starts above the screen. */
  function BoxTop(height: nat): nat {
    if height <= 320 then (320 - height) / 2 else 0
  }

  predicate InRows(py: int, height: nat) {
    BoxTop(height) <= py < BoxTop(height) + height
  }

  predicate InColumns(px: int, width: nat) {
    Centred(width) <= px < Centred(width) + width
  }

  predicate BoxCovers(text: string, recording: bool, font: Font, py: int, px: int) {
    InRows(py, BoxHeight(text, font) + MeterHeight(recording)) && InColumns(px, BoxWidth(text, font))
  }

  /** The box at pixel (`oy`, `ox`) of every cell. */
  function PixelCover(font: Font, oy: nat, ox: nat): Cover {
    (text: string, recording: bool, y: nat, x: nat) =>
      BoxCovers(text, recording, font, y * font.height + oy, x * font.advance + ox)
  }

  lemma {:induction false} WidestIs(lines: seq<string>, i: nat)
    requires i < |lines|
    ensures |lines[i]| <= Widest(lines)
  {
    if i > 0 {
      WidestIs(lines[1..], i - 1);
    }
  }

  lemma {:induction false} WidestWithin(lines: seq<string>, max: nat)
    requires TextWrap.Fits(lines, max)
    ensures Widest(lines) <= max
  {
    if lines != [] {
      WidestWithin(lines[1..], max);
    }
  }

  /** The box holds its text: every line lies between paddings of 10 pixels, the whole box is on
      the screen from side to side and in its middle, and the lines, one font height each, lie
      between paddings of 8 pixels. */
  lemma TextInsideBox(text: string, font: Font, i: nat)
    requires 1 <= font.advance <= 300 && i < |LinesOf(text, font)|
    ensures var w, left := BoxWidth(text, font), Centred(BoxWidth(text, font));
            && left + 10 + |LinesOf(text, font)[i]| * font.advance <= left + w - 10
            && 0 <= left && left + w <= 320 && left <= 320 - (left + w) <= left + 1
    ensures 8 + (i + 1) * font.height + 8 <= BoxHeight(text, font)
  {
    var lines := LinesOf(text, font);
    var max := TextWrap.MaxChars(300, font.advance);
    TextWrap.EveryLineFits(TextWrap.SplitLines(text), max);
    TextWrap.MaxCharsIsLargest(300, font.advance);
    WidestIs(lines, i);
    WidestWithin(lines, max);
    MulMonotone(|lines[i]|, Widest(lines), font.advance);
    MulMonotone(Widest(lines), max, font.advance);
    MulMonotone(i + 1, |lines|, font.height);
  }

  /** From top to bottom the box is in the middle of the screen too, or starts at its top. */
  lemma BoxIsCentred(height: nat)
    ensures height <= 320 ==> BoxTop(height) <= 320 - (BoxTop(height) + height) <= BoxTop(height) + 1
    ensures height >= 320 ==> BoxTop(height) == 0
  {
  }

  // ---- the two boxes of one text ----

  /** The box with the meter covers all that the box without it does. */
  lemma MeterBoxIsLarger(height: nat, py: int)
    requires InRows(py, height)
    ensures InRows(py, height + 14)
  {
  }

  /** The box without the meter covers every row of the screen but the last that the one with
      it does, unless it leaves two rows of the screen free. */
  lemma TallBoxIsAsLarge(height: nat, py: int)
    requires height >= 319 && 0 <= py < 320 && (height == 319 ==> py < 319) && InRows(py, height + 14)
    ensures InRows(py, height)
  {
  }

  /** Otherwise the first row of the larger box is a row of the screen outside the smaller. */
  lemma LowBoxIsSmaller(height: nat)
    requires height <= 318
    ensures InRows(BoxTop(height + 14), height + 14) && !InRows(BoxTop(height + 14), height)
    ensures BoxTop(height + 14) < 160
  {
  }

  /** A pixel column of the box, in the left half of the screen. */
  lemma BoxHasAColumn(width: nat) returns (px: nat)
    requires width >= 20
    ensures px < 160 && InColumns(px, width)
  {
    px := if Centred(width) < 0 then 0 else Centred(width);
  }

  // ---- cells and pixels ----

  /** The screen has as many cells of this font as fit it. */
  predicate Fitted(font: Font, rows: nat, cols: nat) {
    && 2 <= font.height <= 160 && 1 <= font.advance <= 160
    && rows == 320 / font.height && cols == 320 / font.advance
  }

  lemma CellOf(size: nat, cells: nat, p: nat) returns (cell: nat, offset: nat)
    requires 1 <= size <= 160 && cells == 320 / size && p < 160
    ensures cell < cells && offset < size && p == cell * size + offset
  {
    cell, offset := p / size, p % size;
    assert 320 == cells * size + 320 % size;
    if cell >= cells {
      MulMonotone(cells, cell, size);
      assert false;
    }
  }

  lemma PixelInScreen(size: nat, cells: nat, cell: nat, offset: nat)
    requires 1 <= size && cells == 320 / size && cell < cells && offset < size
    ensures cell * size + offset < cells * size <= 320
  {
    MulMonotone(cell + 1, cells, size);
    assert (cell + 1) * size == cell * size + size;
    assert 320 == cells * size + 320 % size;
  }

  /** No font leaves a box one pixel lower than a screen that its rows fill. */
  lemma NeverOneShort(height: nat, lines: nat, rows: nat)
    requires height >= 2 && height * lines == 303
    ensures rows * height != 320
  {
    if rows * height == 320 {
      var k := rows - lines;
      assert k * height == 17;
      SeventeenIsPrime(k, height);
      assert false;
    }
  }

  lemma SeventeenIsPrime(k: int, height: nat)
    requires k * height == 17 && height >= 2
    ensures height == 17
  {
    if k <= 0 {
      MulNotPositive(k, height);
    } else if k >= 9 {
      MulMonotone(9, k, height);
    }
  }

  lemma MulNotPositive(k: int, height: nat)
    requires k <= 0
    ensures k * height <= 0
  {
  }

  // ---- what the flag does to a run ----

  /** A paint made while recording shows exactly what drawing from scratch would, at every
      pixel and after every run. */
  lemma RecordingPaintAgrees(s: Shown, events: seq<Event>, now: nat, font: Font, oy: nat, ox: nat)
    requires Starting(s) && Run(s, events, PixelCover(font, oy, ox)).followed
    ensures var p := PaintedRun(s, events, now, true, PixelCover(font, oy, ox));
            p.frame == FromScratch(p.m, true, PixelCover(font, oy, ox))
  {
    var cover := PixelCover(font, oy, ox);
    var p := PaintedRun(s, events, now, true, cover);
    LargerBoxReaches(p.m, font, oy, ox);
    PaintingAgreesWithScratch(s, events, now, true, {true, false}, cover);
  }

  lemma LargerBoxReaches(m: Screen, font: Font, oy: nat, ox: nat)
    ensures BoxReaches(m, true, {true, false}, PixelCover(font, oy, ox))
  {
    var cover := PixelCover(font, oy, ox);
    if m.overlay.shown.Some? {
      var text := m.overlay.shown.value;
      forall y: nat, x: nat | cover(text, false, y, x)
        ensures cover(text, true, y, x)
      {
        MeterBoxIsLarger(BoxHeight(text, font), y * font.height + oy);
      }
    }
  }

  /** The smaller box reaches as far on this screen at pixel (`oy`, `ox`) of every cell. */
  ghost predicate ReachesAt(m: Screen, font: Font, oy: nat, ox: nat) {
    BoxReaches(m, false, {true, false}, PixelCover(font, oy, ox))
  }

  lemma TallBoxCovers(text: string, font: Font, rows: nat, py: nat, px: int)
    requires font.height >= 2 && py < rows * font.height <= 320 && BoxHeight(text, font) >= 319
    requires BoxCovers(text, true, font, py, px)
    ensures BoxCovers(text, false, font, py, px)
  {
    if BoxHeight(text, font) == 319 {
      NeverOneShort(font.height, |LinesOf(text, font)|, rows);
    }
    TallBoxIsAsLarge(BoxHeight(text, font), py);
  }

  lemma TallBoxReaches(m: Screen, text: string, font: Font, oy: nat, ox: nat)
    requires Fitted(font, m.rows, m.cols) && m.overlay.shown == Some(text)
    requires BoxHeight(text, font) >= 319 && oy < font.height
    ensures ReachesAt(m, font, oy, ox)
  {
    forall y: nat, x: nat | y < m.rows && PixelCover(font, oy, ox)(text, true, y, x)
      ensures PixelCover(font, oy, ox)(text, false, y, x)
    {
      PixelInScreen(font.height, m.rows, y, oy);
      TallBoxCovers(text, font, m.rows, y * font.height + oy, x * font.advance + ox);
    }
  }

  lemma LowBoxFallsShort(m: Screen, text: string, font: Font) returns (oy: nat, ox: nat)
    requires Fitted(font, m.rows, m.cols) && m.overlay.shown == Some(text)
    requires BoxHeight(text, font) <= 318
    ensures oy < font.height && ox < font.advance && !ReachesAt(m, font, oy, ox)
  {
    var h := BoxHeight(text, font);
    LowBoxIsSmaller(h);
    var px := BoxHasAColumn(BoxWidth(text, font));
    var y, x;
    y, oy := CellOf(font.height, m.rows, BoxTop(h + 14));
    x, ox := CellOf(font.advance, m.cols, px);
    assert PixelCover(font, oy, ox)(text, true, y, x) && !PixelCover(font, oy, ox)(text, false, y, x);
  }

  /** Once the recording is over, drawing the overlay again over the box it had meanwhile gives
      what drawing from scratch would at this pixel of every cell. */
  ghost predicate AgreesAt(s: Shown, font: Font, oy: nat, ox: nat)
    requires Starting(s)
  {
    var cover := PixelCover(font, oy, ox);
    var p := PaintedRun(s, [Paint(0, true)], 0, false, cover);
    p.frame == FromScratch(p.m, false, cover)
  }

  /** That is so at every pixel if and only if the box without the meter leaves fewer than two
      rows of the screen free; otherwise a strip of the larger box remains. */
  lemma StripIsLeftIff(s: Shown, text: string, font: Font)
    requires Starting(s) && Sized(s.frame, s.m.rows, s.m.cols) && Fitted(font, s.m.rows, s.m.cols)
    requires s.m.overlay == Overlay(Some(text), Some(text), None)
    ensures (forall oy: nat, ox: nat :: oy < font.height && ox < font.advance ==> AgreesAt(s, font, oy, ox)) <==>
            BoxHeight(text, font) >= 319
  {
    forall oy: nat, ox: nat
      ensures AgreesAt(s, font, oy, ox) <==> ReachesAt(s.m, font, oy, ox)
    {
      FlagChangeAgreesIff(s, text, false, PixelCover(font, oy, ox));
    }
    if BoxHeight(text, font) >= 319 {
      forall oy: nat, ox: nat | oy < font.height && ox < font.advance
        ensures AgreesAt(s, font, oy, ox)
      {
        TallBoxReaches(s.m, text, font, oy, ox);
      }
    } else {
      var oy, ox := LowBoxFallsShort(s.m, text, font);
      assert !AgreesAt(s, font, oy, ox);
    }
  }
}
