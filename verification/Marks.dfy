/** Which cells an event marks as damaged (src/grid.rs, src/damage.rs): these and no others. */
module Marks {
  import opened Basics
  import opened Cells
  import opened Rows
  import opened Damage
  import opened GridModel
  import opened Invariant
  import opened DeferredWrap
  import opened AltScreen
  import opened Margins
  import opened Provenance

  /** A scroll marks its region, or everything when the region has more rows than are tracked one by one. */
  predicate RegionMarked(g: Grid, r: nat) {
    g.scrollBottom - g.scrollTop >= MAX_TRACKED_DIRTY_ROWS || g.scrollTop <= r <= g.scrollBottom
  }

  /** The columns of `was` that a glyph at `col` overwrites or blanks. */
  predicate GlyphTouches(was: Row, col: nat, wide: bool, c: nat)
    requires col < |was|
  {
    || c == col
    || (c + 1 == col && was[col].cont)
    || (c == col + 1 && (wide || was[col].wide))
    || (c == col + 2 && c < |was| && wide && was[col + 1].wide)
  }

  /** The columns of the cluster a character joins, before and after. */
  predicate JoinTouches(g: Grid, ch: char, c: nat)
    requires Shape(g)
  {
    var lead := ClusterAt(g);
    lead >= 0
    && var before := ActiveRow(g)[lead];
       && 1 <= |before.contents| <= MAX_CLUSTER_JOINERS
       && (c == lead || (c == lead + 1 && (before.wide || g.profile.clusterWidth(before.contents + [ch]) > 1)))
  }

  predicate PrintMarks(g: Grid, ch: char, r: nat, c: nat)
    requires Shape(g) && r < g.rows && c < g.cols
  {
    if Absorbed(g, ch) then r == g.row && JoinTouches(g, ch, c)
    else if Suppressed(g, ch) then false
    else if TakesWrap(g, ch) then
      if g.row == g.scrollBottom then RegionMarked(g, r)
      else r == RowBelow(g) && GlyphTouches(Active(g).cells[r], 0, g.profile.charWidth(ch) > 1, c)
    else
      r == g.row && LandingCol(g) < g.cols
      && GlyphTouches(ActiveRow(g), LandingCol(g), g.profile.charWidth(ch) > 1, c)
  }

  /** The cells an event marks. */
  predicate MarksCell(g: Grid, e: Event, r: nat, c: nat)
    requires Shape(g) && r < g.rows && c < g.cols
  {
    match e
    case Print(ch) => PrintMarks(g, ch, r, c)
    case Control(byte) => 0x0a <= byte <= 0x0c && g.row == g.scrollBottom && RegionMarked(g, r)
    case EraseInDisplay(_) => true
    case EraseInLine(mode) =>
      r == g.row && ((mode == 0 && c >= g.col) || (mode == 1 && c <= g.col) || mode == 2)
    case EraseCharacters(n) => r == g.row && g.col <= c < g.col + Max(n, 1)
    case InsertCharacters(_) => r == g.row && c >= g.col
    case DeleteCharacters(_) => r == g.row && c >= g.col
    case InsertLines(_) => Between(g, g.row)
    case DeleteLines(_) => Between(g, g.row)
    case ScrollUpBy(_) => RegionMarked(g, r)
    case ScrollDown(_) => true
    case ReverseLine => g.row == g.scrollTop
    case PrivateModes(modes, _) => !KeepsScreen(modes)
    case ResetFull => true
    case SetSize(_, _) => true
    case _ => false
  }

  // ---- the tracker ----

  lemma {:induction false} OneRange(row: u16, start: u16, end: u16, r: u16, c: u16)
    ensures Covers(MarkRange(CLEAN, row, start, end), r, c) <==> r == row && start <= c < end
  {
  }

  lemma {:induction false} RowsFrom(spans: map<u16, Span>, top: u16, bottom: u16)
    requires top <= bottom && |spans| <= MAX_TRACKED_DIRTY_ROWS && forall r | r in spans :: r < top
    ensures var d := MarkRows(RowsDirty(spans), top, bottom);
            if |spans| + (bottom - top + 1) > MAX_TRACKED_DIRTY_ROWS then d == AllDirty
            else d.RowsDirty? && forall r: u16 ::
              if top <= r <= bottom then r in d.spans && d.spans[r] == Span(0, U16_MAX)
              else (r in d.spans <==> r in spans) && (r in spans ==> d.spans[r] == spans[r])
    decreases bottom - top
  {
    if |spans| < MAX_TRACKED_DIRTY_ROWS {
      var more := spans[top := Span(0, U16_MAX)];
      assert MarkRow(RowsDirty(spans), top) == RowsDirty(more);
      if top < bottom { RowsFrom(more, top + 1, bottom); }
    } else {
      if top < bottom { AllStays(top + 1, bottom); }
    }
  }

  lemma {:induction false} AllStays(top: u16, bottom: u16)
    ensures MarkRows(AllDirty, top, bottom) == AllDirty
    decreases bottom + 1 - top
  {
    if top < bottom { AllStays(top + 1, bottom); }
  }

  /** A scrolled region and then columns of one of its rows: the region alone. */
  lemma {:induction false} RegionCovers(g: Grid, row: u16, start: u16, end: u16, r: u16, c: u16)
    requires g.scrollTop <= g.scrollBottom && g.scrollTop <= row <= g.scrollBottom && c < U16_MAX
    ensures var d := MarkRows(CLEAN, g.scrollTop, g.scrollBottom);
            && (Covers(d, r, c) <==> RegionMarked(g, r))
            && (Covers(MarkRange(d, row, start, end), r, c) <==> RegionMarked(g, r))
  {
    hide MarkRows;
    RowsFrom(map[], g.scrollTop, g.scrollBottom);
  }

  // ---- the events ----

  lemma {:induction false} ScrollMarks(g: Grid, count: u16, wrap: RowWrap)
    requires Shape(g)
    ensures ScrollUp(g, count, wrap).dirty == MarkRows(g.dirty, g.scrollTop, g.scrollBottom)
  {
    hide EvictRows, MarkRows, ScreenShape;
  }

  lemma {:induction false} NewlineMarks(g: Grid, wrap: RowWrap)
    requires Shape(g)
    ensures Newline(g, wrap).dirty
         == if g.row == g.scrollBottom then MarkRows(g.dirty, g.scrollTop, g.scrollBottom) else g.dirty
  {
    hide ScrollUp, MarkRows, ScreenShape;
    ScrollMarks(g, 1, wrap);
  }

  lemma {:induction false} PutMarks(g: Grid, ch: char, c: u16)
    requires Shape(g) && g.col < g.cols && c < g.cols && RowOk(g.profile, ActiveRow(g)) && g.profile.charWidth(ch) >= 1
    ensures exists start: u16, end: u16 ::
              && PutChar(g, ch, g.profile.charWidth(ch)).dirty == MarkRange(g.dirty, g.row, start, end)
              && (start <= c < end <==> GlyphTouches(ActiveRow(g), g.col, g.profile.charWidth(ch) > 1, c))
  {
    hide PutGlyph, MarkRange, ScreenShape, CellsOk;
    var row, width := ActiveRow(g), g.profile.charWidth(ch);
    assert PairedAt(row, g.col) && (g.col + 1 < g.cols ==> PairedAt(row, g.col + 1));
    var start, end := PutStart(row, g.col), PutEnd(row, g.col, width);
    assert PutChar(g, ch, width).dirty == MarkRange(g.dirty, g.row, start, end);
    assert start <= c < end <==> GlyphTouches(row, g.col, width > 1, c);
  }

  lemma {:induction false} JoinMarks(g: Grid, ch: char, r: nat, c: nat)
    requires WF(g) && g.dirty == CLEAN && Absorbed(g, ch) && r < g.rows && c < g.cols
    ensures Covers(Step(g, Print(ch)).dirty, r, c) <==> r == g.row && JoinTouches(g, ch, c)
  {
    hide Step, ExtendCluster, MarkRange, ScreenOk, ScreenShape;
    StepText(g, Print(ch));
    AbsorbedIff(g, ch);
    var g0 := Touch(g);
    var lead := ClusterAt(g);
    if lead >= 0 && 1 <= |ActiveRow(g)[lead].contents| <= MAX_CLUSTER_JOINERS {
      ExtendMarks(g0, lead, ch, r, c);
    }
  }

  lemma {:induction false} ExtendMarks(g: Grid, lead: u16, ch: char, r: nat, c: nat)
    requires Shape(g) && g.dirty == CLEAN && lead < g.cols && r < g.rows && c < g.cols
    requires ActiveRow(g)[lead].contents != ""
    ensures var before := ActiveRow(g)[lead];
            var wide := before.wide || g.profile.clusterWidth(before.contents + [ch]) > 1;
            var h := ExtendCluster(g, lead, before.contents + [ch]);
            Covers(h.dirty, r, c) <==> r == g.row && (c == lead || (c == lead + 1 && wide))
  {
    hide JoinCluster, MarkRange, CursorAfterJoin, ScreenShape;
    var row := ActiveRow(g);
    var width := Min(g.profile.clusterWidth(row[lead].contents + [ch]), 2);
    OneRange(g.row, lead, SatAdd(lead, Max(Max(CellWidth(row[lead]), width), 1)), r, c);
  }

  lemma {:induction false} GlyphMarks(g: Grid, ch: char, r: nat, c: nat)
    requires WF(g) && g.dirty == CLEAN && !Absorbed(g, ch) && r < g.rows && c < g.cols
    ensures Covers(Step(g, Print(ch)).dirty, r, c) <==> PrintMarks(g, ch, r, c)
  {
    hide Step, Append, PutChar, Newline, MarkRange, MarkRows, GlyphTouches, ScreenOk, ScreenShape;
    StepText(g, Print(ch));
    AbsorbedIff(g, ch);
    var g0 := Touch(g);
    if TakesWrap(g, ch) {
      WrapMarks(g, ch, r, c);
    } else if !Suppressed(g, ch) {
      var g1 := if g.modes.noAutowrap then g0.(pendingWrap := false, col := LandingCol(g)) else g0;
      ActiveRowOk(g);
      PutMarks(g1, ch, c);
      var start: u16, end: u16 :|
        && PutChar(g1, ch, g1.profile.charWidth(ch)).dirty == MarkRange(g1.dirty, g1.row, start, end)
        && (start <= c < end <==> GlyphTouches(ActiveRow(g1), g1.col, g1.profile.charWidth(ch) > 1, c));
      OneRange(g.row, start, end, r, c);
    }
  }

  lemma {:induction false} WrapMarks(g: Grid, ch: char, r: nat, c: nat)
    requires WF(g) && g.dirty == CLEAN && TakesWrap(g, ch) && r < g.rows && c < g.cols
    ensures Covers(Step(g, Print(ch)).dirty, r, c) <==> PrintMarks(g, ch, r, c)
  {
    hide Step, Append, PutChar, Newline, MarkRange, MarkRows, GlyphTouches, ScreenOk, ScreenShape, Absorbed, Suppressed,
      WentDown, RegionMarked;
    StepText(g, Print(ch));
    AbsorbedIff(g, ch);
    NotSuppressed(g, ch);
    var g1 := Touch(g).(pendingWrap := false, col := 0);
    var m := Newline(g1, Soft);
    NewlineMarks(g1, Soft);
    NewlineFrame(g1, Soft);
    NewlineKeeps(g1, Soft);
    ActiveRowOk(m);
    PutMarks(m, ch, c);
    var start: u16, end: u16 :|
      && PutChar(m, ch, m.profile.charWidth(ch)).dirty == MarkRange(m.dirty, m.row, start, end)
      && (start <= c < end <==> GlyphTouches(ActiveRow(m), m.col, m.profile.charWidth(ch) > 1, c));
    NewlineGoesDown(g1, Soft);
    DownRow(g1, m);
    if g.row == g.scrollBottom {
      RegionCovers(g, g.row, start, end, r, c);
      assert RegionMarked(g1, r) == RegionMarked(g, r) by { SameRegion(g, g1, r); }
    } else {
      OneRange(m.row, start, end, r, c);
      EnteredRow(g1, m);
    }
  }

  lemma {:induction false} SameRegion(g: Grid, g1: Grid, r: nat)
    requires g1.scrollTop == g.scrollTop && g1.scrollBottom == g.scrollBottom
    ensures RegionMarked(g1, r) == RegionMarked(g, r)
  {
  }

  lemma {:induction false} NotSuppressed(g: Grid, ch: char)
    requires !g.modes.noAutowrap
    ensures !Suppressed(g, ch)
  {
  }

  lemma {:induction false} EnteredRow(g: Grid, m: Grid)
    requires Shape(g) && Shape(m) && WentDown(g, m, Soft, -1) && g.row != g.scrollBottom
    ensures ActiveRow(m) == Active(g).cells[RowBelow(g)]
  {
    hide BlankRow, KeepLast;
    assert Active(m).cells[m.row] == CellsBelow(g, m.row);
  }

  lemma {:induction false} ControlMarks(g: Grid, byte: u8, r: nat, c: nat)
    requires WF(g) && g.dirty == CLEAN && r < g.rows && c < g.cols
    ensures Covers(Step(g, Control(byte)).dirty, r, c) <==> MarksCell(g, Control(byte), r, c)
  {
    hide Step, Newline, MarkRows, RegionMarked, ScreenOk, ScreenShape;
    StepText(g, Control(byte));
    var g1 := ClearPendingWrap(g);
    NewlineMarks(g1, Hard);
    RegionCovers(g, g.scrollTop, 0, 0, r, c);
  }

  lemma {:induction false} RowEditMarks(g: Grid, e: Event, r: nat, c: nat)
    requires WF(g) && g.dirty == CLEAN && EditsRow(e) && r < g.rows && c < g.cols
    ensures Covers(Step(g, e).dirty, r, c) <==> MarksCell(g, e, r, c)
  {
    hide Step, EraseCells, InsertCells, DeleteCells, MarkRange, WithActiveRow, ScreenOk, ScreenShape;
    StepRowEdit(g, e);
    if e.EraseInLine? {
      OneRange(g.row, g.col, g.cols, r, c);
      OneRange(g.row, 0, SatAdd(g.col, 1), r, c);
      OneRange(g.row, 0, U16_MAX, r, c);
    } else if e.EraseCharacters? {
      OneRange(g.row, g.col, Min(g.col + Max(e.n, 1), g.cols), r, c);
    } else {
      OneRange(g.row, g.col, g.cols, r, c);
    }
  }

  lemma {:induction false} LinesMark(g: Grid, e: Event, r: nat, c: nat)
    requires WF(g) && g.dirty == CLEAN && MovesRows(e) && r < g.rows && c < g.cols
    ensures Covers(Step(g, e).dirty, r, c) <==> MarksCell(g, e, r, c)
  {
    hide Step, ShiftUp, ShiftDown, ScrollUp, MarkRows, RegionMarked, ScreenOk, ScreenShape;
    StepLines(g, e);
    if e.ScrollUpBy? {
      ScrollMarks(g, Max(e.n, 1), Hard);
      RegionCovers(g, g.scrollTop, 0, 0, r, c);
    }
  }

  lemma {:induction false} ModesMark(g: Grid, modes: seq<u16>, on: bool)
    requires Shape(g)
    ensures SetDecModes(g, modes, on).dirty == if KeepsScreen(modes) then g.dirty else AllDirty
    decreases |modes|
  {
    hide ScreenShape, FlagsAfter, MouseAfter, EncodingAfter, Announced;
    if modes != [] {
      ModesMark(SetDecMode(g, modes[0], on), modes[1..], on);
      assert KeepsScreen(modes) <==> !SwitchesScreen(modes[0]) && KeepsScreen(modes[1..]) by {
        assert forall i | 0 < i < |modes| :: modes[i] == modes[1..][i - 1];
      }
    }
  }

  lemma {:induction false} EraseMarks(g: Grid, mode: u16)
    requires Shape(g)
    ensures EraseDisplay(g, mode).dirty == AllDirty
  {
    hide EraseCells, Preserve, WithActiveRow, BlankRows, ScreenShape;
  }

  lemma {:induction false} OtherMarks(g: Grid, e: Event, r: nat, c: nat)
    requires WF(g) && EventOk(e) && g.dirty == CLEAN && r < g.rows && c < g.cols
    requires !EditsRow(e) && !MovesRows(e) && !e.Print? && !e.Control?
    ensures Covers(Step(g, e).dirty, r, c) <==> MarksCell(g, e, r, c)
  {
    hide Step, SetDecModes, EraseDisplay, ResizeScreen, ScreenOk, ScreenShape, RowAfter, ColAfter;
    StepText(g, e);
    StepReset(g, e);
    StepCursor(g, e);
    if e.PrivateModes? {
      ModesMark(g, e.modes, e.on);
    } else if e.EraseInDisplay? {
      EraseMarks(g, e.mode);
    } else if PlainEvent(e) {
      PlainFrame(g, e);
    }
  }

  /**
    * From a drained tracker, every event marks exactly the cells of `MarksCell`: a glyph the columns it overwrites or
    * blanks, a join the columns of its cluster, a scroll its region, an edit the columns it names, a whole-screen event
    * everything, and cursor motion, modes, pen and replies nothing.
    */
  lemma {:induction false} StepMarksExactly(g: Grid, e: Event, r: nat, c: nat)
    requires WF(g) && EventOk(e) && g.dirty == CLEAN && r < g.rows && c < g.cols
    ensures Covers(Step(g, e).dirty, r, c) <==> MarksCell(g, e, r, c)
  {
    hide Step, Covers, Absorbed, ScreenOk, ScreenShape, JoinTouches;
    if e.Print? {
      if Absorbed(g, e.ch) { JoinMarks(g, e.ch, r, c); } else { GlyphMarks(g, e.ch, r, c); }
    } else if e.Control? {
      ControlMarks(g, e.byte, r, c);
    } else if EditsRow(e) {
      RowEditMarks(g, e, r, c);
    } else if MovesRows(e) {
      LinesMark(g, e, r, c);
    } else {
      OtherMarks(g, e, r, c);
    }
  }
}
