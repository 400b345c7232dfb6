/** A run of one-cell screens in which the painter is not told of a change: the scrollback cap
    is lowered under a scrolled-back viewport. */
module PainterExamples {
  import opened Sequences
  import opened Terminal
  import opened TerminalProofs
  import opened Painter
  import opened PainterTheorems

  function InkOf(c: char): Frame {
    [[Glyph(Cell(c, DEFAULT_ATTRS))]]
  }

  function Row(c: char, dirty: bool): Line {
    Line([Cell(c, DEFAULT_ATTRS)], dirty)
  }

  /** A screen of one cell with the rows `kept` scrolled off. */
  function Tiny(kept: seq<Line>, line: Line, viewport: nat, max: nat, x: nat, repaint: bool): (m: Screen)
    requires viewport <= |kept| <= max && x <= 1 && |line.cells| == 1
    requires forall i :: 0 <= i < |kept| ==> |kept[i].cells| == 1
    ensures Valid(m)
  {
    Screen([line], kept, viewport, max, x, 0, DEFAULT_ATTRS, 1, 1, 0, 0, repaint, Overlay(None, None, None))
  }

  /** As after start-up, with room for two rows of scrollback. */
  function Blank(): Shown {
    Shown(Tiny([], Row(' ', true), 0, 2, 0, true), [[Unpainted]], true)
  }

  lemma PrintFirst(c: char)
    ensures Step(Blank().m, Print(c)) == Tiny([], Row(c, true), 0, 2, 1, true)
  {
    assert [BLANK][0 := Cell(c, DEFAULT_ATTRS)] == [Cell(c, DEFAULT_ATTRS)];
  }

  lemma InkOfRow(c: char)
    ensures [Glyphs(Row(c, false).cells)] == InkOf(c)
  {
    assert Glyphs(Row(c, false).cells) == [Glyph(Cell(c, DEFAULT_ATTRS))];
  }

  lemma PrintNext(kept: seq<Line>, before: char, c: char)
    requires |kept| <= 1 && forall i :: 0 <= i < |kept| ==> |kept[i].cells| == 1
    ensures Step(Tiny(kept, Row(before, false), 0, 2, 1, false), Print(c)) ==
            Tiny(kept + [Row(before, false)], Row(c, true), 0, 2, 1, true)
  {
    var m := Tiny(kept, Row(before, false), 0, 2, 1, false);
    assert m.lines[1..] + [BlankLine(1)] == [BlankLine(1)];
    assert BlankCells(1)[0 := Cell(c, DEFAULT_ATTRS)] == [Cell(c, DEFAULT_ATTRS)];
  }

  /** A full repaint of the live screen. */
  lemma PaintLive(kept: seq<Line>, c: char, frame: Frame, cover: Cover)
    requires |kept| <= 2 && (forall i :: 0 <= i < |kept| ==> |kept[i].cells| == 1) && |frame| == 1
    ensures PaintStep(Shown(Tiny(kept, Row(c, true), 0, 2, 1, true), frame, true), 0, false, cover) ==
            Shown(Tiny(kept, Row(c, false), 0, 2, 1, false), InkOf(c), true)
  {
    var m := Tiny(kept, Row(c, true), 0, 2, 1, true);
    assert TickOverlay(m, 0) == m;
    assert Window(m)[0] == Row(c, true);
    InkOfRow(c);
    assert Drawn(m, frame) == InkOf(c);
    assert CleanRows(m.scrollback, |kept|, |kept| + 1) == kept;
    assert CleanRows(m.lines, 0, 1) == [Row(c, false)];
  }

  /** A full repaint scrolled back to the oldest row. */
  lemma PaintBack(a: char, b: char, c: char, frame: Frame, cover: Cover)
    requires |frame| == 1
    ensures PaintStep(Shown(Tiny([Row(a, false), Row(b, false)], Row(c, false), 2, 2, 1, true), frame, true),
                      0, false, cover) ==
            Shown(Tiny([Row(a, false), Row(b, false)], Row(c, false), 2, 2, 1, false), InkOf(a), true)
  {
    var kept := [Row(a, false), Row(b, false)];
    var m := Tiny(kept, Row(c, false), 2, 2, 1, true);
    assert TickOverlay(m, 0) == m;
    assert Window(m)[0] == Row(a, false);
    InkOfRow(a);
    assert Drawn(m, frame) == InkOf(a);
    assert CleanRows(m.scrollback, 0, 1) == kept;
  }

  /** Lowering the cap moves the window to the next row without a repaint, and the row is
      clean, so it is not painted. */
  lemma ClampThenPaint(a: char, b: char, c: char, cover: Cover)
    ensures var m := Tiny([Row(a, false), Row(b, false)], Row(c, false), 2, 2, 1, false);
            var m' := Tiny([Row(b, false)], Row(c, false), 1, 1, 1, false);
            && Step(m, Limit(1, 2)) == m' && !KeepsView(m, Limit(1, 2))
            && PaintStep(Shown(m', InkOf(a), false), 0, false, cover) == Shown(m', InkOf(a), false)
            && FromScratch(m', false, cover) == InkOf(b)
  {
    var m' := Tiny([Row(b, false)], Row(c, false), 1, 1, 1, false);
    assert [Row(a, false), Row(b, false)][1..] == [Row(b, false)];
    assert TickOverlay(m', 0) == m';
    assert Window(m')[0] == Row(b, false);
    InkOfRow(b);
    assert Drawn(m', InkOf(a)) == InkOf(a);
    assert CleanRows(m'.scrollback, 0, 1) == m'.scrollback;
  }

  lemma RunSnoc(s: Shown, events: seq<Event>, e: Event, cover: Cover)
    requires Starting(s)
    ensures Run(s, events + [e], cover) == EventStep(Run(s, events, cover), e, cover)
  {
    assert (events + [e])[..|events + [e]| - 1] == events;
  }

  /** Printing `c` and painting it. */
  function Written(events: seq<Event>, c: char): seq<Event> {
    events + [Act(Print(c))] + [Paint(0, false)]
  }

  lemma WriteNext(events: seq<Event>, kept: seq<Line>, before: char, c: char, cover: Cover)
    requires |kept| <= 1 && forall i :: 0 <= i < |kept| ==> |kept[i].cells| == 1
    requires Run(Blank(), events, cover) ==
               Shown(Tiny(kept, Row(before, false), 0, 2, 1, false), InkOf(before), true)
    ensures Run(Blank(), Written(events, c), cover) ==
              Shown(Tiny(kept + [Row(before, false)], Row(c, false), 0, 2, 1, false), InkOf(c), true)
  {
    RunSnoc(Blank(), events, Act(Print(c)), cover);
    RunSnoc(Blank(), events + [Act(Print(c))], Paint(0, false), cover);
    PrintNext(kept, before, c);
    PaintLive(kept + [Row(before, false)], c, InkOf(before), cover);
  }

  lemma WriteFirst(c: char, cover: Cover)
    ensures Run(Blank(), Written([], c), cover) ==
              Shown(Tiny([], Row(c, false), 0, 2, 1, false), InkOf(c), true)
  {
    RunSnoc(Blank(), [], Act(Print(c)), cover);
    RunSnoc(Blank(), [] + [Act(Print(c))], Paint(0, false), cover);
    PrintFirst(c);
    PaintLive([], c, Blank().frame, cover);
  }

  /** Three characters written one after another. */
  lemma WriteThree(a: char, b: char, c: char, cover: Cover) returns (events: seq<Event>)
    ensures Run(Blank(), events, cover) ==
              Shown(Tiny([Row(a, false), Row(b, false)], Row(c, false), 0, 2, 1, false), InkOf(c), true)
  {
    WriteFirst(a, cover);
    WriteNext(Written([], a), [], a, b, cover);
    assert [] + [Row(a, false)] == [Row(a, false)];
    WriteNext(Written(Written([], a), b), [Row(a, false)], b, c, cover);
    assert [Row(a, false)] + [Row(b, false)] == [Row(a, false), Row(b, false)];
    events := Written(Written(Written([], a), b), c);
  }

  lemma ViewBack(kept: seq<Line>, line: Line, frame: Frame, cover: Cover)
    requires |kept| == 2 && |kept[0].cells| == |kept[1].cells| == |line.cells| == |frame| == 1
    ensures EventStep(Shown(Tiny(kept, line, 0, 2, 1, false), frame, true), Act(ViewUp(2)), cover) ==
            Shown(Tiny(kept, line, 2, 2, 1, true), frame, true)
  {
  }

  /** And the view scrolled back to the first of them. */
  lemma ScrollBack(a: char, b: char, c: char, cover: Cover) returns (events: seq<Event>)
    ensures Run(Blank(), events, cover) ==
              Shown(Tiny([Row(a, false), Row(b, false)], Row(c, false), 2, 2, 1, false), InkOf(a), true)
  {
    var written := WriteThree(a, b, c, cover);
    RunSnoc(Blank(), written, Act(ViewUp(2)), cover);
    ViewBack([Row(a, false), Row(b, false)], Row(c, false), InkOf(c), cover);
    PaintBack(a, b, c, InkOf(c), cover);
    RunSnoc(Blank(), written + [Act(ViewUp(2))], Paint(0, false), cover);
    events := written + [Act(ViewUp(2))] + [Paint(0, false)];
  }

  /** The cap then lowered by one, the next paint leaves the first character where the second
      belongs. */
  lemma ClampedViewIsStale(a: char, b: char, c: char, cover: Cover) returns (events: seq<Event>)
    ensures var p := PaintedRun(Blank(), events, 0, false, cover);
            p.frame == InkOf(a) && FromScratch(p.m, false, cover) == InkOf(b)
  {
    var scrolled := ScrollBack(a, b, c, cover);
    ClampThenPaint(a, b, c, cover);
    RunSnoc(Blank(), scrolled, Act(Limit(1, 2)), cover);
    events := scrolled + [Act(Limit(1, 2))];
  }
}
