/** Well-formedness of the grid and its preservation by every event, hence over every run. */
module Invariant {
  import opened Basics
  import opened Cells
  import opened Rows
  import opened Damage
  import opened GridModel
  import Sgr

  predicate ScreenOk(p: Profile, s: Screen) {
    forall r | 0 <= r < |s.cells| :: RowOk(p, s.cells[r])
  }

  predicate ScreenAttrs(s: Screen) {
    forall r | 0 <= r < |s.cells| :: AttrsPaired(s.cells[r])
  }

  /** The deferred-wrap flag is set exactly when the cursor is parked in the phantom column. */
  predicate WrapParked(g: Grid) {
    g.pendingWrap <==> g.col == g.cols
  }

  predicate RegionOk(g: Grid) {
    g.scrollTop < g.scrollBottom || (g.scrollTop == 0 && g.scrollBottom == g.rows - 1)
  }

  /** The invariant of every run. */
  predicate WF(g: Grid) {
    && Shape(g)
    && ScreenOk(g.profile, g.primary)
    && ScreenOk(g.profile, g.alternate)
    && |g.history.scrollback.cells| <= g.history.limit
    && WrapParked(g)
    && RegionOk(g)
  }

  /** The clause one event can break: continuations carry the attributes of their leads. */
  predicate AttrsOk(g: Grid) {
    ScreenAttrs(g.primary) && ScreenAttrs(g.alternate)
  }

  lemma {:induction false} FreshIsWF(p: Profile, rows: u16, cols: u16, limit: nat)
    requires rows >= 1 && 1 <= cols <= MAX_COLS
    ensures WF(Fresh(p, rows, cols, limit)) && AttrsOk(Fresh(p, rows, cols, limit))
  {
    BlankRowOk(p, cols, Default);
  }

  /** The tab arithmetic stays inside u16 exactly below column 65528, hence the width bound. */
  lemma {:induction false} TabFitsIff(col: u16)
    ensures (col / 8 + 1) * 8 <= U16_MAX <==> col < MAX_COLS
  {
    var q := col / 8;
    assert 8 * q <= col < 8 * q + 8;
  }

  // ---- building blocks ----

  /** Events that only touch the pen, flags, the keyboard stack or the replies. */
  predicate PlainEvent(e: Event) {
    || e.Graphics? || e.Keypad? || e.Style? || e.Link? || e.KittyUp? || e.KittyDown? || e.Report? || e.AskMode?
       || e.Ignored?
  }

  /** What such an event leaves alone, whatever it does to those. */
  ghost predicate PlainChange(g: Grid, h: Grid) {
    && h == g.(pen := h.pen, modes := h.modes, cursorStyle := h.cursorStyle, activeLink := h.activeLink,
               kitty := h.kitty, passthrough := h.passthrough)
    && h.modes.alt == g.modes.alt && h.modes.syncUpdate == g.modes.syncUpdate
  }

  lemma {:induction false} RepliesFrame(g: Grid, n: u16, dec: bool)
    requires Shape(g)
    ensures PlainChange(g, KittyPush(g, n)) && PlainChange(g, KittyPop(g, n)) && PlainChange(g, StatusReport(g, n, dec))
  {
    hide ScreenShape;
  }

  lemma {:induction false} FlagFrame(g: Grid, e: Event)
    requires Shape(g) && (e.Graphics? || e.Keypad? || e.Style? || e.Link? || e.Ignored?)
    ensures PlainChange(g, Step(g, e))
  {
    hide Sgr.ApplySgr, Shape;
  }

  lemma {:induction false} AskFrame(g: Grid, mode: u16, dec: bool)
    requires Shape(g)
    ensures PlainChange(g, Step(g, AskMode(mode, dec)))
  {
    hide ModeStatus, Shape;
  }

  lemma {:induction false} PlainFrame(g: Grid, e: Event)
    requires Shape(g) && PlainEvent(e)
    ensures PlainChange(g, Step(g, e))
  {
    hide Shape, KittyPush, KittyPop, StatusReport, PlainChange;
    if e.KittyUp? || e.KittyDown? {
      RepliesFrame(g, e.n, false);
    } else if e.Report? {
      RepliesFrame(g, e.n, e.dec);
    } else if e.AskMode? {
      AskFrame(g, e.mode, e.dec);
    } else {
      FlagFrame(g, e);
    }
  }

  lemma {:induction false} RowsOf(g: Grid, r: nat)
    requires Shape(g) && r < g.rows
    ensures r < |Active(g).cells| && |Active(g).cells[r]| == g.cols
  {
  }

  lemma {:induction false} PenRowLength(g: Grid)
    ensures |PenBlankRow(g)| == g.cols
  {
  }

  lemma {:induction false} FlagsKeepAlt(m: Modes, mode: u16, on: bool)
    ensures FlagsAfter(m, mode, on).alt == m.alt
  {
    if mode == 1 {
    } else if mode == 7 {
    } else if mode == 25 {
    } else if mode == 1004 {
    } else if mode == 2004 {
    } else if mode == 2026 {
    }
  }

  lemma {:induction false} PreserveFrame(g: Grid)
    requires Shape(g)
    ensures Preserve(g) == g.(history := Preserve(g).history)
  {
    hide FilledBlock, ScreenShape;
  }

  lemma {:induction false} WFShape(g: Grid)
    requires WF(g)
    ensures Shape(g)
  {
  }

  lemma {:induction false} SetRowKeeps(g: Grid, row: Row)
    requires WF(g) && |row| == g.cols && RowOk(g.profile, row)
    ensures WF(WithActiveRow(g, row))
    ensures AttrsOk(g) && AttrsPaired(row) ==> AttrsOk(WithActiveRow(g, row))
  {
  }

  lemma {:induction false} ActiveRowOk(g: Grid)
    requires WF(g)
    ensures RowOk(g.profile, ActiveRow(g))
    ensures AttrsOk(g) ==> AttrsPaired(ActiveRow(g))
  {
  }

  lemma {:induction false} ShiftUpKeeps(p: Profile, s: Screen, cols: u16, top: nat, bottom: nat, n: nat, wrap: RowWrap)
    requires top <= bottom < |s.cells| == |s.wraps| && n <= bottom + 1 - top
    ensures ScreenOk(p, s) ==> ScreenOk(p, ShiftUp(s, cols, top, bottom, n, wrap))
    ensures ScreenAttrs(s) ==> ScreenAttrs(ShiftUp(s, cols, top, bottom, n, wrap))
  {
    hide RowOk, AttrsPaired, BlankRow;
    BlankRowOk(p, cols, Default);
    var t := ShiftUp(s, cols, top, bottom, n, wrap);
    assert forall r | 0 <= r < |t.cells| ::
        t.cells[r] == if r < top then s.cells[r] else if r <= bottom - n then s.cells[r + n]
                      else if r <= bottom then BlankRow(cols) else s.cells[r];
  }

  lemma {:induction false} ShiftDownKeeps(p: Profile, s: Screen, cols: u16, top: nat, bottom: nat, n: nat)
    requires top <= bottom < |s.cells| == |s.wraps| && n <= bottom + 1 - top
    ensures ScreenOk(p, s) ==> ScreenOk(p, ShiftDown(s, cols, top, bottom, n))
    ensures ScreenAttrs(s) ==> ScreenAttrs(ShiftDown(s, cols, top, bottom, n))
  {
    hide RowOk, AttrsPaired, BlankRow;
    BlankRowOk(p, cols, Default);
    var t := ShiftDown(s, cols, top, bottom, n);
    assert forall r | 0 <= r < |t.cells| ::
        t.cells[r] == if r < top then s.cells[r] else if r < top + n then BlankRow(cols)
                      else if r <= bottom then s.cells[r - n] else s.cells[r];
  }

  lemma {:induction false} BlankedCellsKeep(p: Profile, cells: seq<Row>, blank: Row, from: nat, to: nat)
    requires from <= to <= |cells| && RowOk(p, blank) && AttrsPaired(blank)
    requires forall r | 0 <= r < |cells| :: RowOk(p, cells[r])
    ensures var after := cells[..from] + Repeat(blank, to - from) + cells[to..];
            && (forall r | 0 <= r < |after| :: RowOk(p, after[r]))
            && ((forall r | 0 <= r < |cells| :: AttrsPaired(cells[r]))
                 ==> forall r | 0 <= r < |after| :: AttrsPaired(after[r]))
  {
    hide RowOk, AttrsPaired;
    var after := cells[..from] + Repeat(blank, to - from) + cells[to..];
    assert forall r | 0 <= r < |after| :: after[r] == if from <= r < to then blank else cells[r];
  }

  lemma {:induction false} BlankRowsKeeps(g: Grid, from: nat, to: nat)
    requires WF(g) && from <= to <= g.rows
    ensures WF(BlankRows(g, from, to))
    ensures AttrsOk(g) ==> AttrsOk(BlankRows(g, from, to))
  {
    hide RowOk, AttrsPaired, PenBlankRow;
    assert RowOk(g.profile, PenBlankRow(g)) && AttrsPaired(PenBlankRow(g)) by { PenRowOk(g); }
    BlankedCellsKeep(g.profile, Active(g).cells, PenBlankRow(g), from, to);
  }

  lemma {:induction false} PenRowOk(g: Grid)
    ensures RowOk(g.profile, PenBlankRow(g)) && AttrsPaired(PenBlankRow(g))
  {
    BlankRowOk(g.profile, g.cols, g.pen.background);
  }

  // ---- scrolling ----

  lemma {:induction false} EvictKeeps(g: Grid, n: u16, wrap: RowWrap)
    requires WF(g) && n <= g.scrollBottom - g.scrollTop + 1
    ensures WF(EvictRows(g, n, wrap))
    ensures AttrsOk(g) ==> AttrsOk(EvictRows(g, n, wrap))
  {
    ShiftUpKeeps(g.profile, Active(g), g.cols, g.scrollTop, g.scrollBottom, n, wrap);
  }

  lemma {:induction false} ScrollUpKeeps(g: Grid, count: u16, wrap: RowWrap)
    requires WF(g)
    ensures WF(ScrollUp(g, count, wrap))
    ensures AttrsOk(g) ==> AttrsOk(ScrollUp(g, count, wrap))
  {
    hide EvictRows;
    var n := Min(count, g.scrollBottom - g.scrollTop + 1);
    EvictKeeps(g, n, wrap);
    EvictFrame(g, n, wrap);
  }

  /** Scrolling touches cells, wrap flags and scrollback only. */
  lemma {:induction false} EvictFrame(g: Grid, n: u16, wrap: RowWrap)
    requires Shape(g) && n <= g.scrollBottom - g.scrollTop + 1
    ensures var h := EvictRows(g, n, wrap);
            h == g.(primary := h.primary, alternate := h.alternate, history := h.history)
  {
    hide ShiftUp, PushScrollback;
  }

  lemma {:induction false} NewlineKeeps(g: Grid, wrap: RowWrap)
    requires WF(g)
    ensures WF(Newline(g, wrap))
    ensures AttrsOk(g) ==> AttrsOk(Newline(g, wrap))
  {
    if g.row == g.scrollBottom { ScrollUpKeeps(g, 1, wrap); }
  }

  lemma {:induction false} ShiftActiveDownKeeps(g: Grid, top: u16, bottom: u16, rows: u16)
    requires WF(g) && top <= bottom < g.rows && rows <= bottom - top + 1
    ensures WF(ShiftActiveDown(g, top, bottom, rows))
    ensures AttrsOk(g) ==> AttrsOk(ShiftActiveDown(g, top, bottom, rows))
  {
    ShiftDownKeeps(g.profile, Active(g), g.cols, top, bottom, rows);
  }

  lemma {:induction false} DeleteLinesKeeps(g: Grid, p0: u16)
    requires WF(g)
    ensures WF(DeleteLinesAt(g, p0))
    ensures AttrsOk(g) ==> AttrsOk(DeleteLinesAt(g, p0))
  {
    hide ShiftUp, ScreenOk, ScreenAttrs;
    if g.scrollTop <= g.row <= g.scrollBottom {
      var n := Min(Max(p0, 1), g.scrollBottom - g.row + 1);
      ShiftUpKeeps(g.profile, Active(g), g.cols, g.row, g.scrollBottom, n, Hard);
    }
  }

  // ---- printing ----

  lemma {:induction false} JoinClusterOk(p: Profile, row: Row, lead: nat, ch: char, link: Option<Hyperlink>)
    requires RowOk(p, row) && lead < |row| && row[lead].HasContents()
    requires |row[lead].contents| <= MAX_CLUSTER_JOINERS
    requires p.charWidth(ch) == 0 || EndsWithZwj(row[lead].contents)
    ensures var s := row[lead].contents + [ch];
            var joined := JoinCluster(row, lead, s, link, Min(p.clusterWidth(s), 2));
            && 1 <= p.clusterWidth(s) <= 2
            && |joined| == |row| && RowOk(p, joined)
            && (AttrsPaired(row) ==> AttrsPaired(joined))
  {
    var was := row[lead].contents;
    var s := was + [ch];
    assert CellOk(p, row[lead]);
    assert s[0] == was[0];
    assert ClusterOk(p, s) by {
      forall i | 1 <= i < |s| ensures p.charWidth(s[i]) == 0 || s[i - 1] == ZWJ {
        if i < |was| { assert s[i] == was[i] && s[i - 1] == was[i - 1]; }
      }
    }
    var mid := row[lead := row[lead].(contents := s, link := link)];
    assert Paired(mid) by {
      forall i | 0 <= i < |mid| ensures PairedAt(mid, i) { assert PairedAt(row, i); }
    }
    assert AttrsPaired(row) ==> AttrsPaired(mid);
    SetCellWidthOk(p, mid, lead, Min(p.clusterWidth(s), 2));
  }

  lemma {:induction false} LeadIsNotContinuation(row: Row, target: nat)
    requires Paired(row) && target < |row|
    ensures !row[LeadOf(row, target)].cont
  {
    assert PairedAt(row, target);
    assert target > 0 ==> PairedAt(row, target - 1);
  }

  lemma {:induction false} ExtendKeeps(g: Grid, lead: u16, ch: char)
    requires WF(g) && lead < g.cols
    requires ActiveRow(g)[lead].HasContents()
    requires |ActiveRow(g)[lead].contents| <= MAX_CLUSTER_JOINERS
    requires g.profile.charWidth(ch) == 0 || EndsWithZwj(ActiveRow(g)[lead].contents)
    ensures WF(ExtendCluster(g, lead, ActiveRow(g)[lead].contents + [ch]))
    ensures AttrsOk(g) ==> AttrsOk(ExtendCluster(g, lead, ActiveRow(g)[lead].contents + [ch]))
  {
    var row := ActiveRow(g);
    var s := row[lead].contents + [ch];
    ActiveRowOk(g);
    JoinClusterOk(g.profile, row, lead, ch, g.activeLink);
    var joined := JoinCluster(row, lead, s, g.activeLink, Min(g.profile.clusterWidth(s), 2));
    SetRowKeeps(g, joined);
    hide RowOk, CellOk, ScreenOk, AttrsPaired, JoinCluster, WithActiveRow, MarkRange;
    assert CellWidth(row[lead]) <= 2;
    WithActiveRowFrame(g, joined);
  }

  lemma {:induction false} WithActiveRowFrame(g: Grid, row: Row)
    requires Shape(g) && |row| == g.cols
    ensures var h := WithActiveRow(g, row); h == g.(primary := h.primary, alternate := h.alternate)
    ensures Active(WithActiveRow(g, row)) == Active(g).(cells := Active(g).cells[g.row := row])
  {
  }

  lemma {:induction false} AppendKeeps(g: Grid, ch: char)
    requires WF(g)
    ensures var r := Append(g, ch, g.profile.charWidth(ch));
            r.Some? ==> WF(r.value) && (AttrsOk(g) ==> AttrsOk(r.value))
  {
    var width := g.profile.charWidth(ch);
    var r := Append(g, ch, width);
    if r.Some? && JoinTarget(g).Some? {
      var row := ActiveRow(g);
      var lead := LeadOf(row, JoinTarget(g).value);
      if row[lead].HasContents() && |row[lead].contents| <= MAX_CLUSTER_JOINERS
         && (width == 0 || EndsWithZwj(row[lead].contents)) {
        ExtendKeeps(g, lead, ch);
      }
    }
  }

  lemma {:induction false} PutCharKeeps(g: Grid, ch: char, width: nat)
    requires Shape(g) && ScreenOk(g.profile, g.primary) && ScreenOk(g.profile, g.alternate)
    requires |g.history.scrollback.cells| <= g.history.limit && RegionOk(g)
    requires !g.pendingWrap && g.col < g.cols
    requires g.profile.charWidth(ch) == width >= 1
    ensures WF(PutChar(g, ch, width))
    ensures AttrsOk(g) ==> AttrsOk(PutChar(g, ch, width))
  {
    var row := ActiveRow(g);
    var cell := Cell([ch], width > 1, false, g.pen, g.activeLink);
    assert WF(g);
    ActiveRowOk(g);
    PutGlyphOk(g.profile, row, g.col, cell);
    SetRowKeeps(g, PutGlyph(row, g.col, cell));
    WithActiveRowFrame(g, PutGlyph(row, g.col, cell));
    hide RowOk, CellOk, ScreenOk, AttrsPaired, PutGlyph, WithActiveRow, MarkRange, ScreenAttrs;
  }

  lemma {:induction false} WriteCharKeeps(g: Grid, ch: char)
    requires WF(g)
    ensures WF(WriteChar(g, ch))
    ensures AttrsOk(g) ==> AttrsOk(WriteChar(g, ch))
  {
    hide Append, PutChar, Newline, ScreenOk, ScreenAttrs;
    var g0 := Touch(g);
    var width := g.profile.charWidth(ch);
    AppendKeeps(g0, ch);
    if Append(g0, ch, width).None? {
      if g0.modes.noAutowrap {
        var col := Min(g0.col, g0.cols - 1);
        if width <= g0.cols - col {
          PutCharKeeps(g0.(pendingWrap := false, col := col), ch, width);
        }
      } else if g0.pendingWrap {
        var g1 := g0.(pendingWrap := false, col := 0);
        NewlineKeeps(g1, Soft);
        NewlineFrame(g1, Soft);
        PutCharKeeps(Newline(g1, Soft), ch, width);
      } else {
        PutCharKeeps(g0, ch, width);
      }
    }
  }

  /** A newline leaves everything but rows, scrollback, the cursor row and the damage log alone. */
  lemma {:induction false} NewlineFrame(g: Grid, wrap: RowWrap)
    requires Shape(g)
    ensures var h := Newline(g, wrap);
            h == g.(primary := h.primary, alternate := h.alternate, history := h.history, row := h.row,
                    scrollOps := h.scrollOps, dirty := h.dirty)
  {
    hide EvictRows, MarkRows, Shape;
    if g.row == g.scrollBottom && g.scrollTop < g.scrollBottom {
      EvictFrame(g, Min(1, g.scrollBottom - g.scrollTop + 1), wrap);
    }
  }

  // ---- erasing and in-row edits ----

  lemma {:induction false} EraseRowKeeps(g: Grid, start: u16, end: u16)
    requires WF(g) && start <= end <= g.cols && (start == end ==> start == g.cols)
    ensures WF(WithActiveRow(g, EraseCells(ActiveRow(g), start, end, PenBlank(g))))
    ensures AttrsOk(g) ==> AttrsOk(WithActiveRow(g, EraseCells(ActiveRow(g), start, end, PenBlank(g))))
  {
    ActiveRowOk(g);
    EraseCellsOk(g.profile, ActiveRow(g), start, end, g.pen.background);
    SetRowKeeps(g, EraseCells(ActiveRow(g), start, end, PenBlank(g)));
  }

  lemma {:induction false} EraseLineKeeps(g: Grid, mode: u16)
    requires WF(g)
    ensures WF(EraseLine(g, mode))
    ensures AttrsOk(g) ==> AttrsOk(EraseLine(g, mode))
  {
    hide ScreenOk, ScreenAttrs, EraseCells, WithActiveRow;
    match mode {
      case 0 =>
        EraseRowKeeps(g, g.col, g.cols);
      case 1 =>
        EraseRowKeeps(g, 0, Min(g.col, g.cols - 1) + 1);
      case 2 =>
        BlankRowOk(g.profile, g.cols, g.pen.background);
        SetRowKeeps(g, PenBlankRow(g));
      case _ =>
    }
  }

  lemma {:induction false} PreserveKeeps(g: Grid)
    requires WF(g)
    ensures WF(Preserve(g))
    ensures var h := Preserve(g);
            h == g.(history := h.history)
  {
  }

  lemma {:induction false} EraseBelowKeeps(g: Grid)
    requires WF(g)
    ensures WF(EraseDisplay(g, 0))
    ensures AttrsOk(g) ==> AttrsOk(EraseDisplay(g, 0))
  {
    hide ScreenOk, ScreenAttrs, EraseCells, WithActiveRow, Preserve, BlankRows, ScreenShape;
    PreserveKeeps(g);
    var g1 := if g.row == 0 && g.col == 0 then Preserve(g) else g;
    EraseRowKeeps(g1, g1.col, g1.cols);
    var g2 := WithActiveRow(g1, EraseCells(ActiveRow(g1), g1.col, g1.cols, PenBlank(g1)));
    BlankRowsKeeps(g2, g2.row + 1, g2.rows);
  }

  lemma {:induction false} EraseDisplayKeeps(g: Grid, mode: u16)
    requires WF(g)
    ensures WF(EraseDisplay(g, mode))
    ensures AttrsOk(g) ==> AttrsOk(EraseDisplay(g, mode))
  {
    hide ScreenOk, ScreenAttrs, EraseCells, WithActiveRow, Preserve, BlankRows, ScreenShape;
    if mode == 0 {
      EraseBelowKeeps(g);
    } else if mode == 1 {
      BlankRowsKeeps(g, 0, g.row);
      var g1 := BlankRows(g, 0, g.row);
      EraseRowKeeps(g1, 0, Min(g1.col, g1.cols - 1) + 1);
    } else if mode == 2 {
      PreserveKeeps(g);
      BlankRowsKeeps(Preserve(g), 0, g.rows);
    } else if mode == 3 {
      BlankRowsKeeps(g.(history := Forget(g.history)), 0, g.rows);
    }
  }

  lemma {:induction false} EraseCharsKeeps(g: Grid, p0: u16)
    requires WF(g)
    ensures WF(EraseChars(g, p0)) && (AttrsOk(g) ==> AttrsOk(EraseChars(g, p0)))
  {
    hide ScreenOk, ScreenAttrs, EraseCells, WithActiveRow;
    var end := Min(g.col + Max(p0, 1), g.cols);
    EraseRowKeeps(g, Min(g.col, end), end);
  }

  lemma {:induction false} InsertCharsKeeps(g: Grid, p0: u16)
    requires WF(g)
    ensures WF(InsertChars(g, p0)) && (AttrsOk(g) ==> AttrsOk(InsertChars(g, p0)))
  {
    hide ScreenOk, ScreenAttrs, WithActiveRow, InsertCells;
    ActiveRowOk(g);
    InsertCellsOk(g.profile, ActiveRow(g), g.col, Max(p0, 1));
    SetRowKeeps(g, InsertCells(ActiveRow(g), g.col, Max(p0, 1)));
  }

  lemma {:induction false} DeleteCharsKeeps(g: Grid, p0: u16)
    requires WF(g)
    ensures WF(DeleteChars(g, p0))
  {
    hide ScreenOk, ScreenAttrs, WithActiveRow, DeleteCells;
    ActiveRowOk(g);
    DeleteCellsOk(g.profile, ActiveRow(g), g.col, Max(p0, 1));
    SetRowKeeps(g, DeleteCells(ActiveRow(g), g.col, Max(p0, 1)));
  }

  /** Whether this deletion would glue a lead to a foreign continuation of other attributes. */
  predicate DeletionMixes(g: Grid, p0: u16)
    requires Shape(g)
  {
    DeleteMixesPair(ActiveRow(g), g.col, Max(p0, 1))
  }

  /** DCH keeps the attribute clause exactly when it mixes no pair. */
  lemma {:induction false} DeleteCharsAttrsIff(g: Grid, p0: u16)
    requires WF(g) && AttrsOk(g)
    ensures AttrsOk(DeleteChars(g, p0)) <==> !DeletionMixes(g, p0)
  {
    ActiveRowOk(g);
    var n := Max(p0, 1);
    DeleteKeepsAttrsIff(g.profile, ActiveRow(g), g.col, n);
    var row := DeleteCells(ActiveRow(g), g.col, n);
    assert |row| == g.cols by { DeleteCellsOk(g.profile, ActiveRow(g), g.col, n); }
    assert Active(WithActiveRow(g, row)).cells[g.row] == row;
    if AttrsPaired(row) {
      DeleteCellsOk(g.profile, ActiveRow(g), g.col, n);
      SetRowKeeps(g, row);
    }
  }

  // ---- modes, resets, resize ----

  lemma {:induction false} SetDecModeKeeps(g: Grid, mode: u16, on: bool)
    requires WF(g)
    ensures WF(SetDecMode(g, mode, on))
    ensures AttrsOk(g) ==> AttrsOk(SetDecMode(g, mode, on))
  {
    hide ScreenOk, ScreenAttrs, ScreenShape;
  }

  lemma {:induction false} SetDecModesKeeps(g: Grid, modes: seq<u16>, on: bool)
    requires WF(g)
    ensures WF(SetDecModes(g, modes, on))
    ensures AttrsOk(g) ==> AttrsOk(SetDecModes(g, modes, on))
    decreases |modes|
  {
    if modes != [] {
      SetDecModeKeeps(g, modes[0], on);
      SetDecModesKeeps(SetDecMode(g, modes[0], on), modes[1..], on);
    }
  }

  lemma {:induction false} ResizeScreenKeeps(p: Profile, s: Screen, oldRows: nat, oldCols: nat, rows: u16, cols: u16)
    requires ScreenShape(s, oldRows, oldCols) && ScreenOk(p, s)
    ensures ScreenOk(p, ResizeScreen(s, rows, cols))
    ensures ScreenAttrs(s) ==> ScreenAttrs(ResizeScreen(s, rows, cols))
  {
    BlankRowOk(p, cols, Default);
    forall r | 0 <= r < |s.cells|
      ensures RowOk(p, ResizeRow(s.cells[r], cols))
      ensures ScreenAttrs(s) ==> AttrsPaired(ResizeRow(s.cells[r], cols))
    {
      ResizeRowSpec(p, s.cells[r], cols);
    }
    hide ResizeRow, RowOk, AttrsPaired;
  }

  lemma {:induction false} ResizeKeeps(g: Grid, rows: u16, cols: u16)
    requires WF(g) && cols <= MAX_COLS
    ensures WF(Resize(g, rows, cols))
    ensures AttrsOk(g) ==> AttrsOk(Resize(g, rows, cols))
  {
    ResizeScreenKeeps(g.profile, g.primary, g.rows, g.cols, Max(rows, 1), Max(cols, 1));
    ResizeScreenKeeps(g.profile, g.alternate, g.rows, g.cols, Max(rows, 1), Max(cols, 1));
    assert Shape(Resize(g, rows, cols));
    hide ScreenOk, ScreenAttrs, ScreenShape, ResizeScreen;
  }

  lemma {:induction false} ResetsKeep(g: Grid)
    requires WF(g)
    ensures WF(SoftReset(g)) && WF(FullReset(g))
    ensures AttrsOk(g) ==> AttrsOk(SoftReset(g)) && AttrsOk(FullReset(g))
  {
    BlankRowOk(g.profile, g.cols, Default);
  }

  lemma {:induction false} ClearPendingKeeps(g: Grid)
    requires WF(g)
    ensures WF(ClearPendingWrap(g))
  {
  }

  lemma {:induction false} ExecuteKeeps(g: Grid, byte: u8)
    requires WF(g)
    ensures WF(Execute(g, byte))
    ensures AttrsOk(g) ==> AttrsOk(Execute(g, byte))
  {
    hide ScreenOk, ScreenAttrs, ScreenShape, Newline;
    ClearPendingKeeps(g);
    NewlineKeeps(ClearPendingWrap(g), Hard);
  }

  lemma {:induction false} ReverseKeeps(g: Grid)
    requires WF(g)
    ensures WF(ReverseIndex(g))
    ensures AttrsOk(g) ==> AttrsOk(ReverseIndex(g))
  {
    hide ScreenOk, ScreenAttrs, ScreenShape, ShiftActiveDown;
    ClearPendingKeeps(g);
    var g1 := ClearPendingWrap(g);
    ShiftActiveDownKeeps(g1, g1.scrollTop, g1.scrollBottom, 1);
  }

  lemma {:induction false} MoveKeeps(g: Grid, m: Move)
    requires WF(g)
    ensures WF(MoveCursor(g, m))
    ensures AttrsOk(g) ==> AttrsOk(MoveCursor(g, m))
  {
    hide ScreenOk, ScreenAttrs, ScreenShape, RowAfter, ColAfter;
  }

  lemma {:induction false} RestoreKeeps(g: Grid)
    requires WF(g)
    ensures WF(RestoreSavedCursor(g))
    ensures AttrsOk(g) ==> AttrsOk(RestoreSavedCursor(g))
  {
    hide ScreenOk, ScreenAttrs, ScreenShape;
  }

  lemma {:induction false} RegionKeeps(g: Grid, top: u16, bottom: u16)
    requires WF(g)
    ensures WF(SetRegion(g, top, bottom))
    ensures AttrsOk(g) ==> AttrsOk(SetRegion(g, top, bottom))
  {
    hide ScreenOk, ScreenAttrs, ScreenShape;
  }

  // ---- the theorem ----

  /** Whether the attribute clause can break in this step. */
  predicate MixesAttrs(g: Grid, e: Event)
    requires Shape(g)
  {
    e.DeleteCharacters? && DeletionMixes(g, e.n)
  }

  /** Events that edit the cells of the cursor row. */
  predicate EditsRow(e: Event) {
    e.EraseInLine? || e.EraseCharacters? || e.InsertCharacters? || e.DeleteCharacters?
  }

  /** Events that edit cells or rows. */
  predicate EditEvent(e: Event) {
    e.Print? || e.EraseInDisplay? || e.EraseInLine? || e.EraseCharacters? || e.InsertCharacters? || e.DeleteCharacters?
    || e.InsertLines? || e.DeleteLines? || e.ScrollUpBy? || e.ScrollDown?
  }

  lemma {:induction false} RowEditKeeps(g: Grid, e: Event)
    requires WF(g) && EditsRow(e)
    ensures WF(Step(g, e))
    ensures AttrsOk(g) ==> (AttrsOk(Step(g, e)) <==> !MixesAttrs(g, e))
  {
    hide WF, Shape, AttrsOk, EraseLine, EraseChars, InsertChars, DeleteChars, DeletionMixes;
    WFShape(g);
    match e {
      case EraseInLine(mode) => EraseLineKeeps(g, mode);
      case EraseCharacters(n) => EraseCharsKeeps(g, n);
      case InsertCharacters(n) => InsertCharsKeeps(g, n);
      case DeleteCharacters(n) =>
        DeleteCharsKeeps(g, n);
        if AttrsOk(g) { DeleteCharsAttrsIff(g, n); }
    }
  }

  lemma {:induction false} EditKeeps(g: Grid, e: Event)
    requires WF(g) && EditEvent(e)
    ensures WF(Step(g, e))
    ensures AttrsOk(g) ==> (AttrsOk(Step(g, e)) <==> !MixesAttrs(g, e))
  {
    hide ScreenOk, ScreenAttrs, ScreenShape, WriteChar, EraseDisplay, EraseLine, EraseChars,
      InsertChars, DeleteChars, ScrollUp, ShiftActiveDown, DeleteLinesAt, DeletionMixes;
    if EditsRow(e) {
      RowEditKeeps(g, e);
    } else {
      ScreenEditKeeps(g, e);
    }
  }

  lemma {:induction false} ScreenEditKeeps(g: Grid, e: Event)
    requires WF(g) && EditEvent(e) && !EditsRow(e)
    ensures WF(Step(g, e))
    ensures AttrsOk(g) ==> AttrsOk(Step(g, e))
  {
    hide ScreenOk, ScreenAttrs, ScreenShape, WriteChar, EraseDisplay, ScrollUp, ShiftActiveDown, DeleteLinesAt;
    match e {
      case Print(ch) => WriteCharKeeps(g, ch);
      case EraseInDisplay(mode) => EraseDisplayKeeps(g, mode);
      case InsertLines(n) =>
        if g.scrollTop <= g.row <= g.scrollBottom {
          ShiftActiveDownKeeps(g, g.row, g.scrollBottom, Min(Max(n, 1), g.scrollBottom - g.row + 1));
        }
      case DeleteLines(n) => DeleteLinesKeeps(g, n);
      case ScrollUpBy(n) => ScrollUpKeeps(g, Max(n, 1), Hard);
      case ScrollDown(n) =>
        ShiftActiveDownKeeps(g, g.scrollTop, g.scrollBottom, Min(Max(n, 1), g.scrollBottom - g.scrollTop + 1));
    }
  }

  lemma {:induction false} ControlKeeps(g: Grid, e: Event)
    requires WF(g) && EventOk(e) && !EditEvent(e)
    ensures WF(Step(g, e))
    ensures AttrsOk(g) ==> AttrsOk(Step(g, e))
  {
    hide ScreenOk, ScreenAttrs, ScreenShape, Execute, MoveCursor, ReverseIndex, SetDecModes, SetRegion,
      RestoreSavedCursor, SoftReset, FullReset, Resize;
    match e {
      case Control(byte) => ExecuteKeeps(g, byte);
      case Cursor(m) => MoveKeeps(g, m);
      case ReverseLine => ReverseKeeps(g);
      case PrivateModes(modes, on) => SetDecModesKeeps(g, modes, on);
      case Region(top, bottom) => RegionKeeps(g, top, bottom);
      case Restore => RestoreKeeps(g);
      case ResetSoft => ResetsKeep(g);
      case ResetFull => ResetsKeep(g);
      case SetSize(rows, cols) => ResizeKeeps(g, rows, cols);
      case _ =>
    }
  }

  /**
    * One step keeps the invariant, and keeps the attribute clause exactly when the step is not a deletion that
    * glues two glyphs.
    */
  lemma {:induction false} StepKeeps(g: Grid, e: Event)
    requires WF(g) && EventOk(e)
    ensures WF(Step(g, e))
    ensures AttrsOk(g) ==> (AttrsOk(Step(g, e)) <==> !MixesAttrs(g, e))
  {
    hide Step, AttrsOk, ScreenOk, ScreenShape;
    if EditEvent(e) { EditKeeps(g, e); } else { ControlKeeps(g, e); }
  }

  /** No step of the run glues a lead to a foreign continuation. */
  predicate NeverMixes(g: Grid, es: seq<Event>)
    requires Shape(g) && EventsOk(es)
    decreases |es|
  {
    es == [] || (!MixesAttrs(g, es[0]) && NeverMixes(Step(g, es[0]), es[1..]))
  }

  /**
    * Every run, resizes included, keeps the invariant and the scrollback limit; a run that never glues two glyphs
    * keeps the attribute clause too.
    */
  lemma {:induction false} RunKeeps(g: Grid, es: seq<Event>)
    requires WF(g) && EventsOk(es)
    ensures WF(Run(g, es)) && |Run(g, es).history.scrollback.cells| <= Run(g, es).history.limit
    ensures Run(g, es).history.limit == g.history.limit
    ensures AttrsOk(g) && NeverMixes(g, es) ==> AttrsOk(Run(g, es))
    decreases |es|
  {
    if es != [] {
      StepKeeps(g, es[0]);
      RunKeeps(Step(g, es[0]), es[1..]);
    }
  }
}
