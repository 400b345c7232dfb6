/** Over any run of terminal, viewport and overlay steps interleaved with paints, the
    incremental painter shows what drawing every visible row from scratch would show. */
module PainterTheorems {
  import opened Sequences
  import opened Terminal
  import opened TerminalProofs
  import opened Painter

  /** The model, the display, and whether the scrollback cap was ever lowered under a
      scrolled-back viewport (the one change the painter is not told about). */
  datatype Shown = Shown(m: Screen, frame: Frame, followed: bool)

  datatype Event = Act(a: Action) | Paint(now: nat, recording: bool)

  function PaintStep(s: Shown, now: nat, recording: bool, cover: Cover): Shown
    requires Valid(s.m) && |s.frame| == s.m.rows
  {
    var m := TickOverlay(s.m, now);
    s.(m := Cleaned(m), frame := Boxed(Drawn(m, s.frame), m.overlay.shown, recording, cover))
  }

  /** An undefined step is a panic: nothing more happens to the screen. */
  function EventStep(s: Shown, e: Event, cover: Cover): Shown
    requires Valid(s.m) && |s.frame| == s.m.rows
  {
    match e
    case Act(a) =>
      if Defined(s.m, a) then s.(m := Step(s.m, a), followed := s.followed && KeepsView(s.m, a)) else s
    case Paint(now, recording) => PaintStep(s, now, recording, cover)
  }

  // ---- the synchronisation invariant ----

  /** A tile shows its cell, or the box of the overlay still up, drawn in one of `modes`. */
  ghost predicate TileOk(ink: Ink, cell: Cell, shown: Option<string>, y: nat, x: nat, modes: set<bool>, cover: Cover) {
    || ink == Glyph(cell)
    || (ink.Box? && shown == Some(ink.text) && ink.recording in modes && cover(ink.text, ink.recording, y, x))
  }

  ghost predicate RowOk(row: seq<Ink>, cells: Cells, shown: Option<string>, y: nat, modes: set<bool>, cover: Cover) {
    && |row| == |cells|
    && forall x :: 0 <= x < |cells| ==> TileOk(row[x], cells[x], shown, y, x, modes, cover)
  }

  /** Every visible row not marked dirty is on the display. */
  ghost predicate InSync(s: Shown, modes: set<bool>, cover: Cover) {
    && Valid(s.m) && |s.frame| == s.m.rows
    && (s.followed && !s.m.fullRepaint ==>
          forall y :: 0 <= y < s.m.rows && !Window(s.m)[y].dirty ==>
            RowOk(s.frame[y], Window(s.m)[y].cells, s.m.overlay.shown, y, modes, cover))
  }

  lemma RowOkUnder(row: seq<Ink>, cells: Cells, shown: Option<string>, shown': Option<string>, y: nat,
                   modes: set<bool>, cover: Cover)
    requires RowOk(row, cells, shown, y, modes, cover) && (shown.None? || shown' == shown)
    ensures RowOk(row, cells, shown', y, modes, cover)
  {
  }

  lemma ActKeepsSync(s: Shown, a: Action, modes: set<bool>, cover: Cover)
    requires InSync(s, modes, cover)
    ensures InSync(EventStep(s, Act(a), cover), modes, cover)
  {
    if Defined(s.m, a) {
      var m' := Step(s.m, a);
      StepValid(s.m, a);
      if s.followed && KeepsView(s.m, a) && !m'.fullRepaint {
        StepFollowed(s.m, a);
        forall y | 0 <= y < m'.rows && !Window(m')[y].dirty
          ensures RowOk(s.frame[y], Window(m')[y].cells, m'.overlay.shown, y, modes, cover)
        {
          RowOkUnder(s.frame[y], Window(s.m)[y].cells, s.m.overlay.shown, m'.overlay.shown, y, modes, cover);
        }
      }
    }
  }

  // ---- paints ----

  lemma CleanedValid(m: Screen)
    requires Valid(m)
    ensures Valid(Cleaned(m))
  {
  }

  lemma CleanedWindow(m: Screen, y: nat)
    requires Valid(m) && y < m.rows
    ensures Valid(Cleaned(m)) && Window(Cleaned(m))[y] == Window(m)[y].(dirty := false)
  {
    CleanedValid(m);
    VisibleRowIsWindow(m, y);
    VisibleRowIsWindow(Cleaned(m), y);
  }

  /** What one row of the display shows after a paint in `mode`: the box of a shown overlay
      where it covers the tile, elsewhere the cell - or, of the same overlay, a part of its
      box drawn in another mode. */
  ghost predicate RowShows(row: seq<Ink>, cells: Cells, shown: Option<string>, y: nat,
                           mode: bool, modes: set<bool>, cover: Cover) {
    && |row| == |cells|
    && forall x :: 0 <= x < |cells| ==>
         if shown.Some? && cover(shown.value, mode, y, x) then row[x] == Box(shown.value, mode)
         else TileOk(row[x], cells[x], shown, y, x, modes, cover)
  }

  lemma BoxedShows(row: seq<Ink>, cells: Cells, shown: Option<string>, y: nat,
                   mode: bool, modes: set<bool>, cover: Cover)
    requires RowOk(row, cells, shown, y, modes, cover)
    ensures RowShows(match shown case None => row case Some(t) => BoxedRow(row, y, t, mode, cover),
                     cells, shown, y, mode, modes, cover)
  {
  }

  lemma GlyphsOk(cells: Cells, shown: Option<string>, y: nat, modes: set<bool>, cover: Cover)
    ensures RowOk(Glyphs(cells), cells, shown, y, modes, cover)
  {
  }

  lemma TickKeepsSync(s: Shown, now: nat, modes: set<bool>, cover: Cover)
    requires InSync(s, modes, cover)
    ensures InSync(s.(m := TickOverlay(s.m, now)), modes, cover)
  {
    ActKeepsSync(s, Act(Tick(now)).a, modes, cover);
    assert s.(m := TickOverlay(s.m, now)) == EventStep(s, Act(Tick(now)), cover);
  }

  lemma PaintShows(s: Shown, now: nat, recording: bool, modes: set<bool>, cover: Cover, y: nat)
    requires InSync(s, modes, cover) && s.followed && recording in modes && y < s.m.rows
    ensures var s' := PaintStep(s, now, recording, cover);
            && Valid(s'.m) && |s'.frame| == s'.m.rows == s.m.rows
            && !Window(s'.m)[y].dirty
            && RowShows(s'.frame[y], Window(s'.m)[y].cells, s'.m.overlay.shown, y, recording, modes, cover)
  {
    var m := TickOverlay(s.m, now);
    TickKeepsSync(s, now, modes, cover);
    CleanedWindow(m, y);
    var cells := Window(m)[y].cells;
    GlyphsOk(cells, m.overlay.shown, y, modes, cover);
    BoxedShows(Drawn(m, s.frame)[y], cells, m.overlay.shown, y, recording, modes, cover);
  }

  lemma PaintKeepsSync(s: Shown, now: nat, recording: bool, modes: set<bool>, cover: Cover)
    requires InSync(s, modes, cover) && recording in modes
    ensures InSync(PaintStep(s, now, recording, cover), modes, cover)
  {
    var s' := PaintStep(s, now, recording, cover);
    TickKeepsSync(s, now, modes, cover);
    CleanedValid(TickOverlay(s.m, now));
    if s.followed {
      forall y | 0 <= y < s'.m.rows && !Window(s'.m)[y].dirty
        ensures RowOk(s'.frame[y], Window(s'.m)[y].cells, s'.m.overlay.shown, y, modes, cover)
      {
        PaintShows(s, now, recording, modes, cover, y);
      }
    }
  }

  // ---- runs ----

  ghost predicate ModesWithin(events: seq<Event>, modes: set<bool>) {
    forall i :: 0 <= i < |events| && events[i].Paint? ==> events[i].recording in modes
  }

  /** A display that is about to be repainted in full, as at start-up. */
  ghost predicate Starting(s: Shown) {
    Valid(s.m) && |s.frame| == s.m.rows && s.m.fullRepaint && s.followed
  }

  ghost function Run(s: Shown, events: seq<Event>, cover: Cover): (r: Shown)
    requires Starting(s)
    ensures Valid(r.m) && |r.frame| == r.m.rows
    decreases |events|
  {
    if events == [] then s
    else
      var before := Run(s, events[..|events| - 1], cover);
      EventKeepsShape(before, events[|events| - 1], cover);
      EventStep(before, events[|events| - 1], cover)
  }

  lemma EventKeepsShape(s: Shown, e: Event, cover: Cover)
    requires Valid(s.m) && |s.frame| == s.m.rows
    ensures var s' := EventStep(s, e, cover);
            Valid(s'.m) && |s'.frame| == s'.m.rows
  {
    match e
    case Act(a) => if Defined(s.m, a) { StepValid(s.m, a); }
    case Paint(now, _) =>
      StepValid(s.m, Tick(now));
      CleanedValid(TickOverlay(s.m, now));
  }

  lemma {:induction false} RunInSync(s: Shown, events: seq<Event>, modes: set<bool>, cover: Cover)
    requires Starting(s) && ModesWithin(events, modes)
    ensures InSync(Run(s, events, cover), modes, cover)
    decreases |events|
  {
    if events != [] {
      var before, e := Run(s, events[..|events| - 1], cover), events[|events| - 1];
      RunInSync(s, events[..|events| - 1], modes, cover);
      match e
      case Act(a) => ActKeepsSync(before, a, modes, cover);
      case Paint(now, recording) =>
        assert events[|events| - 1].recording in modes;
        PaintKeepsSync(before, now, recording, modes, cover);
    }
  }

  /** Every visible row drawn from scratch, with the overlay over it. */
  function FromScratch(m: Screen, recording: bool, cover: Cover): (r: Frame)
    requires Valid(m)
    ensures |r| == m.rows
  {
    Boxed(seq(m.rows, y requires 0 <= y < m.rows => Glyphs(Window(m)[y].cells)), m.overlay.shown, recording, cover)
  }

  /** On this screen, the box drawn in `mode` reaches every tile a box of the same text drawn
      in one of `modes` does. */
  ghost predicate BoxReaches(m: Screen, mode: bool, modes: set<bool>, cover: Cover) {
    m.overlay.shown.Some? ==>
      forall md: bool, y: nat, x: nat ::
        md in modes && y < m.rows && x < m.cols && cover(m.overlay.shown.value, md, y, x) ==>
          cover(m.overlay.shown.value, mode, y, x)
  }

  lemma ShowsScratch(m: Screen, row: seq<Ink>, y: nat, mode: bool, modes: set<bool>, cover: Cover)
    requires Valid(m) && y < m.rows
    requires RowShows(row, Window(m)[y].cells, m.overlay.shown, y, mode, modes, cover)
    requires BoxReaches(m, mode, modes, cover)
    ensures row == FromScratch(m, mode, cover)[y]
  {
    var scratch := FromScratch(m, mode, cover)[y];
    WindowWidth(m, y);
    forall x | 0 <= x < |row| ensures row[x] == scratch[x] {
    }
  }

  lemma WindowWidth(m: Screen, y: nat)
    requires Valid(m) && y < m.rows
    ensures |Window(m)[y].cells| == m.cols
  {
    VisibleRowIsWindow(m, y);
  }

  /** The run so far followed by one more paint. */
  ghost function PaintedRun(s: Shown, events: seq<Event>, now: nat, recording: bool, cover: Cover): (r: Shown)
    requires Starting(s)
    ensures Valid(r.m) && |r.frame| == r.m.rows
  {
    EventKeepsShape(Run(s, events, cover), Paint(now, recording), cover);
    PaintStep(Run(s, events, cover), now, recording, cover)
  }

  /** A paint shows exactly what drawing from scratch would, overlay included, whenever the
      box it draws reaches as far as those of the same text drawn since the start. */
  lemma PaintingAgreesWithScratch(s: Shown, events: seq<Event>, now: nat, recording: bool,
                                  modes: set<bool>, cover: Cover)
    requires Starting(s) && Run(s, events, cover).followed && ModesWithin(events, modes) && recording in modes
    requires BoxReaches(PaintedRun(s, events, now, recording, cover).m, recording, modes, cover)
    ensures var p := PaintedRun(s, events, now, recording, cover);
            p.frame == FromScratch(p.m, recording, cover)
  {
    var before := Run(s, events, cover);
    var p := PaintedRun(s, events, now, recording, cover);
    RunInSync(s, events, modes, cover);
    forall y | 0 <= y < p.m.rows ensures p.frame[y] == FromScratch(p.m, recording, cover)[y] {
      PaintShows(before, now, recording, modes, cover, y);
      ShowsScratch(p.m, p.frame[y], y, recording, modes, cover);
    }
  }

  /** In particular once no overlay is up: nothing remains of any overlay shown before. */
  lemma NothingRemainsOfAnOverlay(s: Shown, events: seq<Event>, now: nat, recording: bool, cover: Cover)
    requires Starting(s) && Run(s, events, cover).followed
    requires PaintedRun(s, events, now, recording, cover).m.overlay.shown.None?
    ensures var p := PaintedRun(s, events, now, recording, cover);
            p.frame == FromScratch(p.m, recording, cover)
  {
    PaintingAgreesWithScratch(s, events, now, recording, {true, false}, cover);
  }

  /** And while the recording flag does not change between paints. */
  lemma ConstantFlagAgrees(s: Shown, events: seq<Event>, now: nat, recording: bool, cover: Cover)
    requires Starting(s) && Run(s, events, cover).followed && ModesWithin(events, {recording})
    ensures var p := PaintedRun(s, events, now, recording, cover);
            p.frame == FromScratch(p.m, recording, cover)
  {
    PaintingAgreesWithScratch(s, events, now, recording, {recording}, cover);
  }

  /** With the flag changing, every tile still shows its cell or the current overlay's own
      box - never an older overlay's. */
  lemma OnlyTheCurrentOverlayShows(s: Shown, events: seq<Event>, now: nat, recording: bool, cover: Cover,
                                   y: nat, x: nat)
    requires Starting(s) && Run(s, events, cover).followed
    requires y < PaintedRun(s, events, now, recording, cover).m.rows
    requires x < |Window(PaintedRun(s, events, now, recording, cover).m)[y].cells|
    ensures var p := PaintedRun(s, events, now, recording, cover);
            && x < |p.frame[y]|
            && TileOk(p.frame[y][x], Window(p.m)[y].cells[x], p.m.overlay.shown, y, x, {true, false}, cover)
  {
    RunInSync(s, events, {true, false}, cover);
    PaintShows(Run(s, events, cover), now, recording, {true, false}, cover, y);
  }

  /** What one paint does to a tile while an untimed overlay is up. */
  lemma TilePainted(s: Shown, text: string, recording: bool, cover: Cover, y: nat, x: nat)
    requires Valid(s.m) && Sized(s.frame, s.m.rows, s.m.cols) && y < s.m.rows && x < s.m.cols
    requires s.m.overlay == Overlay(Some(text), Some(text), None)
    ensures var s' := PaintStep(s, 0, recording, cover);
            && Valid(s'.m) && |s'.frame| == s'.m.rows && |s'.frame[y]| == s'.m.cols
            && |Window(s.m)[y].cells| == s.m.cols
            && !Window(s'.m)[y].dirty && Window(s'.m)[y].cells == Window(s.m)[y].cells
            && s'.frame[y][x] ==
                 (if cover(text, recording, y, x) then Box(text, recording)
                  else if s.m.fullRepaint || Window(s.m)[y].dirty then Glyph(Window(s.m)[y].cells[x])
                  else s.frame[y][x])
  {
    CleanedWindow(s.m, y);
    WindowWidth(s.m, y);
  }

  lemma PaintKeepsModel(s: Shown, text: string, recording: bool, cover: Cover)
    requires Valid(s.m) && Sized(s.frame, s.m.rows, s.m.cols)
    requires s.m.overlay == Overlay(Some(text), Some(text), None)
    ensures var s' := PaintStep(s, 0, recording, cover);
            && Valid(s'.m) && s'.m.overlay == s.m.overlay && !s'.m.fullRepaint
            && s'.m.rows == s.m.rows && s'.m.cols == s.m.cols
            && Sized(s'.frame, s'.m.rows, s'.m.cols) && s'.followed == s.followed
  {
    var s' := PaintStep(s, 0, recording, cover);
    CleanedValid(s.m);
    forall y | 0 <= y < |s'.frame| ensures |s'.frame[y]| == s.m.cols {
      WindowWidth(s.m, y);
    }
  }

  /** The flag matters: a tile reached only by the box drawn first keeps a piece of it. */
  lemma StripRemains(s: Shown, text: string, recording: bool, cover: Cover, y: nat, x: nat)
    requires Starting(s) && Sized(s.frame, s.m.rows, s.m.cols) && y < s.m.rows && x < s.m.cols
    requires s.m.overlay == Overlay(Some(text), Some(text), None)
    requires cover(text, !recording, y, x) && !cover(text, recording, y, x)
    ensures var p := PaintStep(PaintStep(s, 0, !recording, cover), 0, recording, cover);
            |p.frame[y]| == p.m.cols && p.frame[y][x] == Box(text, !recording)
  {
    TilePainted(s, text, !recording, cover, y, x);
    PaintKeepsModel(s, text, !recording, cover);
    var s1 := PaintStep(s, 0, !recording, cover);
    TilePainted(s1, text, recording, cover, y, x);
    PaintKeepsModel(s1, text, recording, cover);
  }

  lemma ScratchHasNoStrip(m: Screen, text: string, mode: bool, cover: Cover, y: nat, x: nat)
    requires Valid(m) && y < m.rows && x < m.cols && m.overlay.shown == Some(text) && !cover(text, mode, y, x)
    ensures |FromScratch(m, mode, cover)[y]| == m.cols && FromScratch(m, mode, cover)[y][x].Glyph?
  {
    WindowWidth(m, y);
  }

  lemma OnePaint(s: Shown, mode: bool, cover: Cover)
    requires Starting(s)
    ensures Run(s, [Paint(0, mode)], cover) == PaintStep(s, 0, mode, cover)
  {
    assert [Paint(0, mode)][..0] == [];
  }

  /** Two paints of the same overlay in different modes agree with drawing from scratch if
      and only if the second box reaches every tile of the first. */
  lemma FlagChangeAgreesIff(s: Shown, text: string, recording: bool, cover: Cover)
    requires Starting(s) && Sized(s.frame, s.m.rows, s.m.cols)
    requires s.m.overlay == Overlay(Some(text), Some(text), None)
    ensures var p := PaintedRun(s, [Paint(0, !recording)], 0, recording, cover);
            p.frame == FromScratch(p.m, recording, cover) <==> BoxReaches(s.m, recording, {true, false}, cover)
  {
    var events := [Paint(0, !recording)];
    OnePaint(s, !recording, cover);
    PaintKeepsModel(s, text, !recording, cover);
    PaintKeepsModel(PaintStep(s, 0, !recording, cover), text, recording, cover);
    if BoxReaches(s.m, recording, {true, false}, cover) {
      PaintingAgreesWithScratch(s, events, 0, recording, {true, false}, cover);
    } else {
      var md: bool, y: nat, x: nat :|
        y < s.m.rows && x < s.m.cols && cover(text, md, y, x) && !cover(text, recording, y, x);
      StripRemains(s, text, recording, cover, y, x);
      ScratchHasNoStrip(PaintedRun(s, events, 0, recording, cover).m, text, recording, cover, y, x);
    }
  }

  // ---- the scrolled-off history ----

  /** The rows in the scrollback at the start and every row scrolled off row 0 since. */
  ghost function History(s: Shown, events: seq<Event>, cover: Cover): seq<Cells>
    requires Starting(s)
    decreases |events|
  {
    if events == [] then CellsOf(s.m.scrollback)
    else
      var before, e := Run(s, events[..|events| - 1], cover), events[|events| - 1];
      History(s, events[..|events| - 1], cover) +
      (if e.Act? && Defined(before.m, e.a) then CellsOf(Evicts(before.m, e.a)) else [])
  }

  ghost predicate SuffixOf<T>(a: seq<T>, b: seq<T>) {
    |a| <= |b| && a == b[|b| - |a|..]
  }

  lemma SuffixGrows(kept: seq<Line>, evicted: seq<Line>, cap: nat, history: seq<Cells>)
    requires SuffixOf(CellsOf(kept), history)
    ensures SuffixOf(CellsOf(Capped(kept + evicted, cap)), history + CellsOf(evicted))
  {
    var h := history + CellsOf(evicted);
    assert CellsOf(kept + evicted) == h[|h| - |kept + evicted|..];
  }

  lemma StepHistory(s: Shown, e: Event, cover: Cover, history: seq<Cells>)
    requires Valid(s.m) && |s.frame| == s.m.rows && SuffixOf(CellsOf(s.m.scrollback), history)
    ensures SuffixOf(CellsOf(EventStep(s, e, cover).m.scrollback),
                     history + (if e.Act? && Defined(s.m, e.a) then CellsOf(Evicts(s.m, e.a)) else []))
  {
    assert history + [] == history;
    match e
    case Act(a) =>
      if Defined(s.m, a) {
        if a.Limit? {
          SuffixGrows(s.m.scrollback, [], Min(a.max, a.safe), history);
          assert s.m.scrollback + [] == s.m.scrollback;
        } else {
          ScrollbackGrows(s.m, a);
          SuffixGrows(s.m.scrollback, Evicts(s.m, a), s.m.maxScrollback, history);
        }
      }
    case Paint(now, _) =>
      var m := TickOverlay(s.m, now);
      assert CellsOf(Cleaned(m).scrollback) == CellsOf(s.m.scrollback);
  }

  /** The scrollback is always the newest part of everything that scrolled off row 0. */
  lemma {:induction false} ScrollbackIsRecentHistory(s: Shown, events: seq<Event>, cover: Cover)
    requires Starting(s)
    ensures SuffixOf(CellsOf(Run(s, events, cover).m.scrollback), History(s, events, cover))
    decreases |events|
  {
    if events != [] {
      var before := events[..|events| - 1];
      ScrollbackIsRecentHistory(s, before, cover);
      StepHistory(Run(s, before, cover), events[|events| - 1], cover, History(s, before, cover));
    }
  }
}
