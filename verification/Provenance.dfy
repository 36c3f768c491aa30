/**
  * Wrap provenance (src/grid.rs): which rows are entered softly, by a deferred wrap, and which hard. Stated on the
  * events alone, together with everything else a printable or a line feed does to the rows.
  */
module Provenance {
  import opened Basics
  import opened Cells
  import opened Rows
  import opened Damage
  import opened GridModel
  import opened Invariant
  import opened Erasing
  import opened Replay
  import opened Scrolling
  import opened DeferredWrap

  // ---- going down one row ----

  /** The cursor stands on the bottom margin of a region that can scroll. */
  predicate AtBottom(g: Grid) {
    g.row == g.scrollBottom && g.scrollTop < g.scrollBottom
  }

  function RowBelow(g: Grid): int {
    if g.row == g.scrollBottom || g.row + 1 == g.rows then g.row else g.row + 1
  }

  /** Row `r` after going down one row: at the bottom margin the region moves up and a blank row enters. */
  function CellsBelow(g: Grid, r: nat): Row
    requires Shape(g) && r < g.rows
  {
    if !AtBottom(g) || r < g.scrollTop || r > g.scrollBottom then Active(g).cells[r]
    else if r < g.scrollBottom then Active(g).cells[r + 1] else BlankRow(g.cols)
  }

  /** Its flag: the row entered is marked, unless a one-row region has nowhere to go; flags move with their rows. */
  function FlagBelow(g: Grid, r: nat, wrap: RowWrap): RowWrap
    requires Shape(g) && r < g.rows
  {
    if g.row != g.scrollBottom then (if r == RowBelow(g) then wrap else Active(g).wraps[r])
    else if !AtBottom(g) || r < g.scrollTop || r > g.scrollBottom then Active(g).wraps[r]
    else if r < g.scrollBottom then Active(g).wraps[r + 1] else wrap
  }

  /** Scrollback after going down one row: the row pushed off the top of the primary screen, with its own flag. */
  function ScrollbackBelow(g: Grid): Screen
    requires Shape(g)
  {
    var was := g.history.scrollback;
    if AtBottom(g) && !g.modes.alt && g.scrollTop == 0 && g.history.limit > 0
    then Screen(KeepLast(was.cells + [g.primary.cells[0]], g.history.limit),
                KeepLast(was.wraps + [g.primary.wraps[0]], g.history.limit))
    else was
  }

  /** Everything `h` has from going down one row, but for the cells of row `edited`. */
  ghost predicate WentDown(g: Grid, h: Grid, wrap: RowWrap, edited: int)
    requires Shape(g) && Shape(h)
  {
    && h.rows == g.rows && h.cols == g.cols && h.modes == g.modes && h.row == RowBelow(g)
    && (forall r | 0 <= r < g.rows && r != edited :: Active(h).cells[r] == CellsBelow(g, r))
    && (forall r | 0 <= r < g.rows :: Active(h).wraps[r] == FlagBelow(g, r, wrap))
    && Inactive(h) == Inactive(g)
    && h.history == g.history.(scrollback := ScrollbackBelow(g), mutated := h.history.mutated)
  }

  lemma {:induction false} ScrolledRow(g: Grid, wrap: RowWrap, r: nat)
    requires Shape(g) && AtBottom(g) && r < g.rows
    ensures var t := ShiftUp(Active(g), g.cols, g.scrollTop, g.scrollBottom, 1, wrap);
            && |t.cells| == g.rows == |t.wraps|
            && t.cells[r] == CellsBelow(g, r) && t.wraps[r] == FlagBelow(g, r, wrap)
  {
    hide ShiftUp, BlankRow;
    ActiveRegion(g);
    ShiftUpRow(Active(g), g.cols, g.scrollTop, g.scrollBottom, 1, wrap, r);
  }

  lemma {:induction false} EvictedRow(g: Grid, wrap: RowWrap)
    requires Shape(g) && AtBottom(g)
    ensures var h := EvictRows(g, 1, wrap);
            && Active(h) == ShiftUp(Active(g), g.cols, g.scrollTop, g.scrollBottom, 1, wrap)
            && Inactive(h) == Inactive(g) && h.history == g.history.(scrollback := ScrollbackBelow(g))
            && h == g.(primary := h.primary, alternate := h.alternate, history := h.history)
  {
    hide ShiftUp;
    if g.scrollTop == 0 {
      assert Active(g).cells[0..0 + 1] == [Active(g).cells[0]];
      assert Active(g).wraps[0..0 + 1] == [Active(g).wraps[0]];
    }
  }

  lemma {:induction false} NewlineScrolls(g: Grid, wrap: RowWrap)
    requires Shape(g) && AtBottom(g)
    ensures WentDown(g, Newline(g, wrap), wrap, -1)
  {
    hide ShiftUp, EvictRows, MarkRows, CellsBelow, FlagBelow, ScrollbackBelow, ScreenShape;
    EvictedRow(g, wrap);
    ActiveRegion(g);
    forall r | 0 <= r < g.rows
      ensures var t := ShiftUp(Active(g), g.cols, g.scrollTop, g.scrollBottom, 1, wrap);
              && |t.cells| == g.rows == |t.wraps|
              && t.cells[r] == CellsBelow(g, r) && t.wraps[r] == FlagBelow(g, r, wrap)
    {
      ScrolledRow(g, wrap, r);
    }
  }

  lemma {:induction false} NewlineStepsDown(g: Grid, wrap: RowWrap)
    requires Shape(g) && g.row != g.scrollBottom
    ensures WentDown(g, Newline(g, wrap), wrap, -1)
  {
    hide ScrollUp, BlankRow, KeepLast;
  }

  /** A one-row region records the scroll but moves nothing. */
  lemma {:induction false} NewlineStuck(g: Grid, wrap: RowWrap)
    requires Shape(g) && g.row == g.scrollBottom == g.scrollTop
    ensures WentDown(g, Newline(g, wrap), wrap, -1)
  {
    hide EvictRows, MarkRows, BlankRow, KeepLast;
  }

  lemma {:induction false} NewlineGoesDown(g: Grid, wrap: RowWrap)
    requires Shape(g)
    ensures WentDown(g, Newline(g, wrap), wrap, -1)
  {
    hide Newline, WentDown, ScreenShape;
    if AtBottom(g) {
      NewlineScrolls(g, wrap);
    } else if g.row == g.scrollBottom {
      NewlineStuck(g, wrap);
    } else {
      NewlineStepsDown(g, wrap);
    }
  }

  /** Where the cursor's column was does not matter. */
  lemma {:induction false} DownFromAnyColumn(g: Grid, h: Grid)
    requires Shape(g) && Shape(h) && WentDown(ClearPendingWrap(g), h, Hard, -1)
    ensures WentDown(g, h, Hard, -1)
  {
    hide BlankRow, KeepLast;
    var g1 := ClearPendingWrap(g);
    assert Active(g1) == Active(g) && Inactive(g1) == Inactive(g) && ScrollbackBelow(g1) == ScrollbackBelow(g);
    assert forall r: nat | r < g.rows :: CellsBelow(g1, r) == CellsBelow(g, r);
    assert forall r: nat | r < g.rows :: FlagBelow(g1, r, Hard) == FlagBelow(g, r, Hard);
  }

  lemma {:induction false} LineFeedGoesDown(g: Grid)
    requires WF(g)
    ensures var h := LineFeed(g);
            && WentDown(g, h, Hard, -1) && h.col == Min(g.col, g.cols - 1) && !h.pendingWrap
            && (h.history.mutated <==> g.history.mutated || g.row == g.scrollBottom)
  {
    hide Newline, WentDown, ScreenShape, ScreenOk;
    var g1 := ClearPendingWrap(g);
    NewlineGoesDown(g1, Hard);
    NewlineFrame(g1, Hard);
    DownFromAnyColumn(g, LineFeed(g));
    NewlineIsNewsIff(g1, Hard);
  }

  /** Scrolling makes the next clear save again; going down without scrolling does not. */
  lemma {:induction false} NewlineIsNewsIff(g: Grid, wrap: RowWrap)
    requires Shape(g)
    ensures Newline(g, wrap).history.mutated <==> g.history.mutated || g.row == g.scrollBottom
  {
    hide EvictRows, MarkRows, ScreenShape;
  }

  lemma {:induction false} OtherControl(g: Grid, byte: u8)
    requires Shape(g) && !(0x0a <= byte <= 0x0c)
    ensures var h := Execute(g, byte);
            h.primary == g.primary && h.alternate == g.alternate && h.history == g.history && h.row == g.row
  {
    hide LineFeed, ScreenShape;
  }

  /**
    * LF, VT and FF cancel a deferred wrap and go down one row, the row entered being hard; every other control leaves
    * all rows, flags and history alone.
    */
  lemma {:induction false} ControlGoesDown(g: Grid, byte: u8)
    requires WF(g)
    ensures var h := Step(g, Control(byte));
            if 0x0a <= byte <= 0x0c
            then WentDown(g, h, Hard, -1) && h.col == Min(g.col, g.cols - 1) && !h.pendingWrap
                 && (h.history.mutated <==> g.history.mutated || g.row == g.scrollBottom)
            else h.primary == g.primary && h.alternate == g.alternate && h.history == g.history && h.row == g.row
  {
    hide Step, LineFeed, WentDown, ScreenShape, ScreenOk;
    StepText(g, Control(byte));
    if 0x0a <= byte <= 0x0c { LineFeedGoesDown(g); } else { OtherControl(g, byte); }
  }

  // ---- printing ----

  /** The character extends the cluster before the cursor, or has no width of its own. */
  predicate Absorbed(g: Grid, ch: char)
    requires Shape(g)
  {
    var at := if g.col >= g.cols then g.cols - 1 else g.col - 1;
    || g.profile.charWidth(ch) == 0
    || (at >= 0 && g.lastPrint == Some((g.row, g.col))
        && var row := ActiveRow(g);
           var before := row[if row[at].cont && at > 0 then at - 1 else at].contents;
           EndsWithZwj(before) && |before| <= MAX_CLUSTER_JOINERS)
  }

  /** Printing takes the deferred wrap first. */
  predicate TakesWrap(g: Grid, ch: char)
    requires Shape(g)
  {
    g.pendingWrap && !g.modes.noAutowrap && !Absorbed(g, ch)
  }

  lemma {:induction false} AbsorbedIff(g: Grid, ch: char)
    requires WF(g)
    ensures Joins(g, ch) <==> Absorbed(g, ch)
  {
    hide ExtendCluster, ScreenOk;
  }

  /** `now` is `was` with a glyph at `col`: the halves of wide glyphs it cuts are blank, its own second half follows. */
  ghost predicate GlyphWritten(was: Row, now: Row, col: nat, cell: Cell)
    requires col < |was|
  {
    && |now| == |was|
    && forall c | 0 <= c < |was| ::
         now[c] == if c == col then cell
                   else if c == col + 1 && cell.wide then ContinuationCell(cell.attrs, cell.link)
                   else if c + 1 == col && was[col].cont then DEFAULT_CELL
                   else if c == col + 1 && was[col].wide then DEFAULT_CELL
                   else if c == col + 2 && cell.wide && was[col + 1].wide then DEFAULT_CELL
                   else was[c]
  }

  lemma {:induction false} PutGlyphWrites(row: Row, col: nat, cell: Cell)
    requires col < |row|
    ensures GlyphWritten(row, PutGlyph(row, col, cell), col, cell)
  {
    hide PutGlyph;
  }

  /** The character got a cell of its own in row `row` of the screen, at `col`, and the cursor moved behind it. */
  ghost predicate Landed(g: Grid, h: Grid, was: Row, row: int, col: nat, ch: char)
    requires Shape(g) && Shape(h) && |was| == g.cols
  {
    && h.row == row && col < g.cols == h.cols && GlyphWritten(was, ActiveRow(h), col, Glyph(g, ch))
    && h.col == Min(col + g.profile.charWidth(ch), g.cols) && h.lastPrint == Some((h.row, h.col))
  }

  lemma {:induction false} PutLandsAt(g: Grid, ch: char)
    requires Shape(g) && g.col < g.cols && g.profile.charWidth(ch) >= 1
    ensures var h := PutChar(g, ch, g.profile.charWidth(ch));
            Landed(g, h, ActiveRow(g), g.row, g.col, ch) && OtherRowsStay(g, h)
  {
    hide PutGlyph, PutStart, PutEnd, MarkRange, WithActiveRow;
    var now := PutGlyph(ActiveRow(g), g.col, Glyph(g, ch));
    PutGlyphWrites(ActiveRow(g), g.col, Glyph(g, ch));
    WithActiveRowFrame(g, now);
    RowKeepsOther(g, now);
  }

  /** Column of the cluster a character extends. */
  function ClusterAt(g: Grid): (lead: int)
    requires Shape(g)
    ensures lead < g.cols
  {
    var at := if g.col >= g.cols then g.cols - 1 else g.col - 1;
    if at > 0 && ActiveRow(g)[at].cont then at - 1 else at
  }

  /** `now` is `was` with `ch` appended to the cluster at `lead`, which then takes `width` columns. */
  ghost predicate ClusterExtended(was: Row, now: Row, lead: nat, ch: char, link: Option<Hyperlink>, width: nat)
    requires lead < |was|
  {
    && |now| == |was|
    && forall c | 0 <= c < |was| ::
         now[c] == if c == lead then was[lead].(contents := was[lead].contents + [ch], link := link, wide := width > 1,
                                                cont := false)
                   else if c == lead + 1 && width > 1 then ContinuationCell(was[lead].attrs, link)
                   else if c == lead + 1 && was[c].cont then DEFAULT_CELL
                   else if c == lead + 2 && width > 1 && was[lead + 1].wide then DEFAULT_CELL
                   else was[c]
  }

  /** The cluster before the cursor, if any, took the character in, and the cursor kept to its end. */
  ghost predicate Extended(g: Grid, h: Grid, ch: char)
    requires Shape(g) && Shape(h)
  {
    var lead := ClusterAt(g);
    if lead < 0 || ActiveRow(g)[lead].contents == "" || |ActiveRow(g)[lead].contents| > MAX_CLUSTER_JOINERS then h == g
    else
      var width := Min(g.profile.clusterWidth(ActiveRow(g)[lead].contents + [ch]), 2);
      && h.cols == g.cols && h.row == g.row && h.lastPrint == Some((h.row, h.col))
      && ClusterExtended(ActiveRow(g), ActiveRow(h), lead, ch, g.activeLink, width)
      && h.col == if g.col == lead + CellWidth(ActiveRow(g)[lead]) then Min(lead + width, g.cols) else g.col
  }

  lemma {:induction false} JoinExtends(row: Row, lead: nat, ch: char, link: Option<Hyperlink>, width: nat)
    requires lead < |row|
    ensures ClusterExtended(row, JoinCluster(row, lead, row[lead].contents + [ch], link, width), lead, ch, link, width)
  {
    hide SetCellWidth;
  }

  lemma {:induction false} ExtendStays(g: Grid, lead: u16, ch: char)
    requires Shape(g) && WrapParked(g) && lead < g.cols
    ensures var row := ActiveRow(g);
            var h := ExtendCluster(g, lead, row[lead].contents + [ch]);
            var width := Min(g.profile.clusterWidth(row[lead].contents + [ch]), 2);
            && OtherRowsStay(g, h)
            && h.lastPrint == Some((h.row, h.col))
            && ClusterExtended(row, ActiveRow(h), lead, ch, g.activeLink, width)
            && h.col == if g.col == lead + CellWidth(row[lead]) then Min(lead + width, g.cols) else g.col
  {
    hide JoinCluster, MarkRange, WithActiveRow, ClusterExtended;
    var row := ActiveRow(g);
    var s := row[lead].contents + [ch];
    var width := Min(g.profile.clusterWidth(s), 2);
    JoinExtends(row, lead, ch, g.activeLink, width);
    JoinLength(row, lead, s, g.activeLink, width);
    var now := JoinCluster(row, lead, s, g.activeLink, width);
    WithActiveRowFrame(g, now);
    RowKeepsOther(g, now);
  }

  /** Only the cursor row was edited. */
  ghost predicate OtherRowsStay(g: Grid, h: Grid) {
    && |Active(h).cells| == |Active(g).cells|
    && (forall r | 0 <= r < |Active(g).cells| && r != g.row :: Active(h).cells[r] == Active(g).cells[r])
    && Active(h).wraps == Active(g).wraps && Inactive(h) == Inactive(g) && h.history == g.history
    && h.rows == g.rows && h.cols == g.cols && h.modes == g.modes && h.row == g.row
  }

  lemma {:induction false} AppendStays(g: Grid, ch: char)
    requires WF(g) && Append(g, ch, g.profile.charWidth(ch)).Some?
    ensures var h := Append(g, ch, g.profile.charWidth(ch)).value;
            OtherRowsStay(g, h) && Extended(g, h, ch)
  {
    hide ExtendCluster, ScreenOk, ClusterExtended, ScreenShape;
    if JoinTarget(g).Some? { ExtendStays(g, ClusterAt(g), ch); }
  }

  /** Writing into the row entered, after going down from a touched and unparked cursor. */
  lemma {:induction false} WriteAfterDown(g: Grid, m: Grid, h: Grid)
    requires Shape(g) && Shape(m) && Shape(h) && OtherRowsStay(m, h)
    requires WentDown(Touch(g).(pendingWrap := false, col := 0), m, Soft, -1)
    ensures WentDown(g, h, Soft, RowBelow(g))
    ensures ActiveRow(m) == CellsBelow(g, RowBelow(g))
  {
    hide BlankRow, KeepLast;
    var g1 := Touch(g).(pendingWrap := false, col := 0);
    assert Active(g1) == Active(g) && Inactive(g1) == Inactive(g) && ScrollbackBelow(g1) == ScrollbackBelow(g);
    assert forall r: nat | r < g.rows :: CellsBelow(g1, r) == CellsBelow(g, r);
    assert forall r: nat | r < g.rows :: FlagBelow(g1, r, Soft) == FlagBelow(g, r, Soft);
  }

  /**
    * Beyond rows, cursor, history and damage a printable changes nothing: pen, link, modes, margins, saved cursor stay.
    */
  ghost predicate OnlyText(g: Grid, h: Grid) {
    h == g.(primary := h.primary, alternate := h.alternate, history := h.history, row := h.row, col := h.col,
            pendingWrap := h.pendingWrap, lastPrint := h.lastPrint, scrollOps := h.scrollOps, dirty := h.dirty)
  }

  lemma {:induction false} PutIsText(g: Grid, ch: char, width: nat)
    requires Shape(g) && 1 <= width <= 2
    ensures OnlyText(g, PutChar(g, ch, width))
  {
    hide PutGlyph, PutStart, PutEnd, MarkRange, WithActiveRow, ScreenShape;
    if g.col < g.cols {
      WithActiveRowFrame(g, PutGlyph(ActiveRow(g), g.col, Cell([ch], width > 1, false, g.pen, g.activeLink)));
    }
  }

  lemma {:induction false} JoinIsText(g: Grid, ch: char, width: nat)
    requires Shape(g) && Append(g, ch, width).Some?
    ensures OnlyText(g, Append(g, ch, width).value)
  {
    hide SetCellWidth, MarkRange, CursorAfterJoin, ScreenShape;
  }

  lemma {:induction false} PrintIsText(g: Grid, ch: char)
    requires Shape(g)
    ensures OnlyText(g, Step(g, Print(ch)))
  {
    hide Step, Append, PutChar, Newline, ScreenShape;
    StepText(g, Print(ch));
    var g0, width := Touch(g), g.profile.charWidth(ch);
    if Append(g0, ch, width).Some? {
      JoinIsText(g0, ch, width);
    } else {
      var g1 := g0.(pendingWrap := false, col := 0);
      NewlineFrame(g1, Soft);
      PutIsText(Newline(g1, Soft), ch, width);
      PutIsText(g0.(pendingWrap := false, col := Min(g0.col, g0.cols - 1)), ch, width);
      PutIsText(g0, ch, width);
    }
  }

  /** A deferred wrap is taken: one row down, softly, and the glyph in its first column. */
  lemma {:induction false} WrapGoesDown(g: Grid, ch: char)
    requires WF(g) && TakesWrap(g, ch)
    ensures var h := Step(g, Print(ch));
            && WentDown(g, h, Soft, RowBelow(g))
            && Landed(g, h, CellsBelow(g, RowBelow(g)), RowBelow(g), 0, ch)
  {
    hide Step, Append, PutChar, Newline, ScreenOk, ScreenShape, GlyphWritten, WentDown, OtherRowsStay;
    StepText(g, Print(ch));
    AbsorbedIff(g, ch);
    var g1 := Touch(g).(pendingWrap := false, col := 0);
    var m := Newline(g1, Soft);
    NewlineGoesDown(g1, Soft);
    NewlineFrame(g1, Soft);
    PutLandsAt(m, ch);
    WriteAfterDown(g, m, Step(g, Print(ch)));
    assert m.row == RowBelow(g) by { DownRow(g1, m); }
  }

  lemma {:induction false} DownRow(g: Grid, h: Grid)
    requires Shape(g) && Shape(h) && WentDown(g, h, Soft, -1)
    ensures h.row == RowBelow(g)
  {
  }

  /**
    * No wrap is taken: every flag, every other row, the other screen and the scrollback stay; the character extends the
    * cluster before the cursor, gets a cell of its own, or is suppressed.
    */
  lemma {:induction false} PrintStays(g: Grid, ch: char)
    requires WF(g) && !TakesWrap(g, ch)
    ensures var h := Step(g, Print(ch));
            && OtherRowsStay(Touch(g), h)
            && if Absorbed(g, ch) then Extended(Touch(g), h, ch)
               else if Suppressed(g, ch) then h == Touch(g)
               else Landed(g, h, ActiveRow(g), g.row, LandingCol(g), ch)
  {
    hide Step, Append, PutChar, Newline, ScreenOk, ScreenShape, GlyphWritten, Extended;
    StepText(g, Print(ch));
    AbsorbedIff(g, ch);
    var g0 := Touch(g);
    if Absorbed(g, ch) {
      AppendStays(g0, ch);
    } else if g.modes.noAutowrap {
      if !Suppressed(g, ch) { PutLandsAt(g0.(pendingWrap := false, col := LandingCol(g)), ch); }
    } else {
      PutLandsAt(g0, ch);
    }
  }

  /**
    * The row a deferred wrap enters is soft, on every grid, except that a one-row grid, having no row to enter, keeps
    * the flag it had.
    */
  lemma {:induction false} WrappedRowIsSoftIff(g: Grid, ch: char)
    requires WF(g) && TakesWrap(g, ch)
    ensures var h := Step(g, Print(ch));
            Active(h).wraps[h.row] == Soft <==> g.rows > 1 || Active(g).wraps[0] == Soft
  {
    hide Step, ScreenOk, Absorbed, Landed, BlankRow;
    WrapGoesDown(g, ch);
    RowsOf(g, 0);
  }
}
