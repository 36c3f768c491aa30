/** `DamageGrid` as the mutable object of the source; every method is the step of module GridModel on its fields. */
module DamageGridObject {
  import opened Basics
  import opened Cells
  import opened Rows
  import opened Damage
  import opened GridModel
  import opened Invariant
  import opened RowStore
  import Sgr

  class DamageGrid {
    const profile: Profile
    var rows: u16
    var cols: u16
    var primary: Screen
    var alternate: Screen
    var history: History
    var row: u16
    var col: u16
    var savedRow: u16
    var savedCol: u16
    var pendingWrap: bool
    var lastPrint: Option<(u16, u16)>
    var modes: Modes
    var mouseMode: MouseMode
    var mouseEncoding: MouseEncoding
    var cursorStyle: u16
    var textCursor: Option<bool>
    var pen: Attrs
    var activeLink: Option<Hyperlink>
    var scrollTop: u16
    var scrollBottom: u16
    var scrollOps: seq<ScrollOp>
    var kitty: seq<nat>
    var dirty: Dirty
    var passthrough: seq<Passthrough>

    /** The grid value the fields hold. */
    ghost function State(): Grid
      reads this
    {
      Grid(profile, rows, cols, primary, alternate, history, row, col, savedRow, savedCol, pendingWrap, lastPrint,
           modes, mouseMode, mouseEncoding, cursorStyle, textCursor, pen, activeLink, scrollTop, scrollBottom,
           scrollOps, kitty, dirty, passthrough)
    }

    constructor (profile: Profile, rows: u16, cols: u16, limit: nat)
      requires rows >= 1 && 1 <= cols <= MAX_COLS
      ensures State() == Fresh(profile, rows, cols, limit)
      ensures WF(State())
    {
      this.profile, this.rows, this.cols := profile, rows, cols;
      primary, alternate := BlankScreen(rows, cols), BlankScreen(rows, cols);
      history := History(Screen([], []), limit, 0, false, None, SaveToScrollback);
      row, col, savedRow, savedCol, pendingWrap, lastPrint := 0, 0, 0, 0, false, None;
      modes, mouseMode, mouseEncoding, cursorStyle, textCursor := DEFAULT_MODES, MouseNone, MouseDefault, 0, None;
      pen, activeLink, scrollTop, scrollBottom, scrollOps, kitty := DEFAULT_ATTRS, None, 0, rows - 1, [], [];
      dirty, passthrough := CLEAN, [];
      new;
      FreshIsWF(profile, rows, cols, limit);
    }

    // ---- rows ----

    method SetActive(s: Screen)
      modifies this`primary, this`alternate
      ensures State() == WithActive(old(State()), s)
    {
      if modes.alt {
        alternate := s;
      } else {
        primary := s;
      }
    }

    method SetActiveRow(cells: Row)
      requires Shape(State()) && |cells| == cols
      modifies this`primary, this`alternate
      ensures State() == WithActiveRow(old(State()), cells)
    {
      hide ScreenShape;
      var s := if modes.alt then alternate else primary;
      assert |s.cells| == rows by { ActiveDims(State()); }
      SetActive(s.(cells := s.cells[row := cells]));
    }

    function CursorRowCells(): (r: Row)
      requires Shape(State())
      reads this
      ensures r == ActiveRow(State())
    {
      (if modes.alt then alternate else primary).cells[row]
    }

    // ---- cursor ----

    method UnparkCursor()
      requires Shape(State())
      modifies this`pendingWrap, this`lastPrint, this`col
      ensures State() == ClearPendingWrap(old(State()))
    {
      pendingWrap := false;
      lastPrint := None;
      if col >= cols {
        col := cols - 1;
      }
    }

    method ClampCursor()
      requires rows >= 1 && cols >= 1
      modifies this`row, this`col
      ensures row == Min(old(row), rows - 1) && col == Min(old(col), cols - 1)
    {
      row := Min(row, rows - 1);
      col := Min(col, cols - 1);
    }

    method RestoreCursor()
      requires Shape(State())
      modifies this`row, this`col, this`pendingWrap, this`lastPrint
      ensures State() == RestoreSavedCursor(old(State()))
    {
      hide Shape, RestoreSavedCursor, Unprinted;
      RestoreIs(State());
      BreakCluster();
      PlaceCursor(savedRow, savedCol);
    }

    /** Whatever comes next starts a cell of its own, without a deferred wrap. */
    method BreakCluster()
      modifies this`pendingWrap, this`lastPrint
      ensures State() == Unprinted(old(State()))
    {
      pendingWrap := false;
      lastPrint := None;
    }

    /** Clamp a saved position to the screen; a saved phantom column parks the cursor again. */
    method PlaceCursor(toRow: u16, toCol: u16)
      requires rows >= 1 && cols >= 1 && !pendingWrap
      modifies this`row, this`col, this`pendingWrap
      ensures State() == Placed(old(State()), toRow, toCol)
    {
      row := toRow;
      col := toCol;
      ClampCursor();
      if toCol >= cols {
        col := cols;
        pendingWrap := true;
      }
    }

    // ---- scrolling ----

    /** Move the region up, handing rows that leave the top of the primary screen to scrollback. */
    method EvictRowsNow(n: u16, wrap: RowWrap)
      requires Shape(State()) && |history.scrollback.cells| <= history.limit && n <= scrollBottom - scrollTop + 1
      modifies this`primary, this`alternate, this`history
      ensures State() == EvictRows(old(State()), n, wrap)
      ensures |history.scrollback.cells| <= history.limit
    {
      hide ShiftUp, ScreenShape, PushScrollback;
      ghost var g := State();
      ActiveDims(g);
      PushWithin(g, n);
      var keep := !modes.alt && scrollTop == 0 && history.limit > 0;
      var s, saved := ScrollRegion(
        if modes.alt then alternate else primary, history.scrollback, history.limit, keep, cols, scrollTop,
            scrollBottom, n, wrap);
      history := history.(scrollback := saved);
      SetActive(s);
    }

    /** Note the change, record the shift, mark the region. */
    method LogScroll(n: u16)
      requires scrollTop <= scrollBottom
      modifies this`history, this`scrollOps, this`dirty
      ensures State() == ScrollLogged(old(State()), n)
    {
      hide MarkRows;
      history := history.(mutated := true);
      if n > 0 {
        scrollOps := scrollOps + [ScrolledUp(scrollTop, scrollBottom, n)];
      }
      dirty := MarkEach(dirty, scrollTop, scrollBottom);
    }

    method ScrollRegionUp(count: u16, wrap: RowWrap)
      requires Shape(State()) && |history.scrollback.cells| <= history.limit
      modifies this`primary, this`alternate, this`history, this`scrollOps, this`dirty
      ensures State() == ScrollUp(old(State()), count, wrap)
      ensures |history.scrollback.cells| <= history.limit
    {
      hide EvictRows, ScrollLogged, ScrollUp, Shape;
      ghost var g := State();
      ShapeFacts(g);
      ScrollUpIs(g, count, wrap);
      var n: u16 := Min(count, scrollBottom - scrollTop + 1);
      if scrollTop < scrollBottom {
        EvictRowsNow(n, wrap);
      }
      LogScroll(n);
    }

    method NewlineAction(wrap: RowWrap)
      requires Shape(State()) && |history.scrollback.cells| <= history.limit
      modifies this`primary, this`alternate, this`history, this`scrollOps, this`dirty, this`row
      ensures State() == Newline(old(State()), wrap)
    {
      hide ScrollUp, ScreenShape;
      if row == scrollBottom {
        ScrollRegionUp(1, wrap);
      } else {
        ActiveDims(State());
        row := Min(SatAdd(row, 1), rows - 1);
        var s := if modes.alt then alternate else primary;
        SetActive(s.(wraps := s.wraps[row := wrap]));
      }
    }

    method ShiftRowsDown(top: u16, bottom: u16, n: u16)
      requires Shape(State()) && top <= bottom < rows && n <= bottom - top + 1
      modifies this`primary, this`alternate, this`scrollOps, this`dirty
      ensures State() == ShiftActiveDown(old(State()), top, bottom, n)
    {
      hide ShiftDown, ScreenShape;
      ActiveDims(State());
      scrollOps := scrollOps + [ScrolledDown(top, bottom, n)];
      var s := ShiftRegionDown(if modes.alt then alternate else primary, cols, top, bottom, n);
      SetActive(s);
      dirty := AllDirty;
    }

    method DeleteLinesNow(p0: u16)
      requires Shape(State())
      modifies this`primary, this`alternate, this`scrollOps, this`dirty
      ensures State() == DeleteLinesAt(old(State()), p0)
    {
      hide ShiftUp, ScreenShape, PushScrollback;
      if row < scrollTop || row > scrollBottom {
        return;
      }
      ActiveDims(State());
      var n: u16 := Min(Max(p0, 1), scrollBottom - row + 1);
      scrollOps := scrollOps + [ScrolledUp(row, scrollBottom, n)];
      var s, _ := ScrollRegion(if modes.alt then alternate else primary, Screen([], []), 0, false, cols, row,
          scrollBottom, n, Hard);
      SetActive(s);
      dirty := AllDirty;
    }

    method InsertLinesNow(p0: u16)
      requires Shape(State())
      modifies this`primary, this`alternate, this`scrollOps, this`dirty
      ensures State() == InsertLinesAt(old(State()), p0)
    {
      hide ShiftActiveDown, ScreenShape;
      if row < scrollTop || row > scrollBottom {
        return;
      }
      ShiftRowsDown(row, scrollBottom, Min(Max(p0, 1), scrollBottom - row + 1));
    }

    method ReverseIndexNow()
      requires Shape(State())
      modifies this`primary, this`alternate, this`scrollOps, this`dirty, this`row, this`col, this`pendingWrap,
        this`lastPrint
      ensures State() == ReverseIndex(old(State()))
    {
      hide ShiftActiveDown, ScreenShape;
      UnparkCursor();
      if row == scrollTop {
        ShiftRowsDown(scrollTop, scrollBottom, 1);
      } else {
        row := SatSub(row, 1);
      }
    }

    // ---- printing ----

    /** `append_to_previous_cluster`: true when the character was absorbed. */
    method AppendToPreviousCluster(ch: char, width: nat) returns (absorbed: bool)
      requires Shape(State())
      modifies this`primary, this`alternate, this`col, this`pendingWrap, this`lastPrint, this`dirty
      ensures absorbed == Append(old(State()), ch, width).Some?
      ensures State() == if absorbed then Append(old(State()), ch, width).value else old(State())
    {
      hide ScreenShape, ExtendCluster;
      var zero := width == 0;
      if !zero && lastPrint != Some((row, col)) {
        return false;
      }
      var target: u16;
      if pendingWrap || col >= cols {
        target := cols - 1;
      } else if col > 0 {
        target := col - 1;
      } else {
        return zero;
      }
      var cells := CursorRowCells();
      var lead: u16 := if cells[target].cont && target > 0 then target - 1 else target;
      var contents := cells[lead].contents;
      if !zero && !EndsWithZwj(contents) {
        return false;
      }
      if contents == "" && zero {
        return true;
      }
      if |contents| > MAX_CLUSTER_JOINERS {
        return zero;
      }
      JoinAt(lead, contents + [ch]);
      return true;
    }

    method JoinAt(lead: u16, contents: string)
      requires Shape(State()) && lead < cols
      modifies this`primary, this`alternate, this`col, this`pendingWrap, this`lastPrint, this`dirty
      ensures State() == ExtendCluster(old(State()), lead, contents)
    {
      hide ScreenShape, JoinCluster, MarkRange, WithActiveRow, CursorAfterJoin;
      var cells := CursorRowCells();
      var oldWidth := CellWidth(cells[lead]);
      var newWidth: u16 := Min(profile.clusterWidth(contents), 2);
      var joined := EditJoin(cells, lead, contents, activeLink, newWidth);
      assert |joined| == cols by { JoinLength(cells, lead, contents, activeLink, newWidth); }
      SetActiveRow(joined);
      MoveWithCluster(lead, oldWidth, newWidth);
      dirty := MarkRange(dirty, row, lead, SatAdd(lead, Max(Max(oldWidth, newWidth), 1)));
      lastPrint := Some((row, col));
    }

    /** Keep the cursor at the end of a cluster whose width changed, parking or unparking it at the margin. */
    method MoveWithCluster(lead: u16, oldWidth: u16, newWidth: u16)
      requires lead < cols <= MAX_COLS && col <= cols && oldWidth <= 2 && newWidth <= 2
      modifies this`col, this`pendingWrap
      ensures (col, pendingWrap) == CursorAfterJoin(old(col), old(pendingWrap), cols, lead, oldWidth, newWidth)
    {
      var atEnd := col == lead + oldWidth;
      if atEnd {
        if col < cols {
          col := Min(lead + newWidth, cols);
        } else if newWidth < oldWidth {
          pendingWrap := false;
          col := lead + newWidth;
        }
      }
      if (pendingWrap || col >= cols) && lead + newWidth >= cols && newWidth > oldWidth {
        col := cols;
        pendingWrap := true;
      }
    }

    /** Take the deferred wrap, or with autowrap off clamp to the margin; false when the glyph is suppressed. */
    method MakeRoom(width: nat) returns (fits: bool)
      requires Shape(State()) && |history.scrollback.cells| <= history.limit && 1 <= width <= 2
      modifies this
      ensures Shape(State())
      ensures var g := old(State());
              if g.modes.noAutowrap then
                fits == (width <= g.cols - Min(g.col, g.cols - 1))
                && State() == if fits then g.(pendingWrap := false, col := Min(g.col, g.cols - 1)) else g
              else fits && State() == if g.pendingWrap then Newline(g.(pendingWrap := false, col := 0), Soft) else g
    {
      hide ScreenShape, Newline;
      if pendingWrap && !modes.noAutowrap {
        pendingWrap := false;
        col := 0;
        NewlineModes(State());
        NewlineAction(Soft);
      }
      if modes.noAutowrap {
        var c: u16 := Min(col, cols - 1);
        if width > cols - c {
          return false;
        }
        pendingWrap := false;
        col := c;
      }
      return true;
    }

    method WriteCharAtCursor(ch: char)
      requires Shape(State()) && |history.scrollback.cells| <= history.limit
      modifies this
      ensures State() == WriteChar(old(State()), ch)
    {
      hide ScreenShape, Append, PutChar, Newline;
      var width := profile.charWidth(ch);
      history := history.(mutated := true);
      var absorbed := AppendToPreviousCluster(ch, width);
      if absorbed {
        return;
      }
      var fits := MakeRoom(width);
      if !fits {
        return;
      }
      PutCharHere(ch, width);
    }

    method PutCharHere(ch: char, width: nat)
      requires Shape(State()) && 1 <= width <= 2
      modifies this`primary, this`alternate, this`col, this`pendingWrap, this`lastPrint, this`dirty
      ensures State() == PutChar(old(State()), ch, width)
    {
      hide Shape, PutGlyph, MarkRange, WithActiveRow, PutStart, PutEnd, PutChar;
      ghost var g := State();
      ShapeFacts(g);
      PutNothing(g, ch, width);
      if col >= cols {
        return;
      }
      PutGlyphHere(Cell([ch], width > 1, false, pen, activeLink), width);
      Advance(width);
      PutIs(g, ch, width);
    }

    method PutGlyphHere(cell: Cell, width: u16)
      requires Shape(State()) && col < cols && 1 <= width <= 2 && cell.wide == (width > 1)
      modifies this`primary, this`alternate, this`dirty
      ensures var g := old(State()); var was := ActiveRow(g);
              State() == WithActiveRow(g, PutGlyph(was, g.col, cell))
                           .(dirty := MarkRange(g.dirty, g.row, PutStart(was, g.col), PutEnd(was, g.col, width)))
    {
      hide Shape, PutGlyph, MarkRange, WithActiveRow, PutStart, PutEnd;
      ShapeFacts(State());
      var cells, start, end := EditPut(CursorRowCells(), col, cell, width);
      WithActiveRowFrame(State(), cells);
      SetActiveRow(cells);
      dirty := MarkRange(dirty, row, start, end);
    }

    /** Move past a glyph, parking at the phantom column. */
    method Advance(width: nat)
      requires col < cols <= MAX_COLS && width <= 2
      modifies this`col, this`pendingWrap, this`lastPrint
      ensures State() == Advanced(old(State()), width)
    {
      col := col + width;
      if col >= cols {
        col := cols;
        pendingWrap := true;
      }
      lastPrint := Some((row, col));
    }

    // ---- erasing and in-row edits ----

    method EraseLineNow(mode: u16)
      requires Shape(State())
      modifies this`primary, this`alternate, this`dirty
      ensures State() == EraseLine(old(State()), mode)
    {
      hide ScreenShape, EraseCells, MarkRange, WithActiveRow, PenBlankRow;
      var blank := BlankCell(pen.background);
      if mode == 0 {
        var r := EditErase(CursorRowCells(), col, cols, blank);
        SetActiveRow(r);
        dirty := MarkRange(dirty, row, col, cols);
      } else if mode == 1 {
        var r := EditErase(CursorRowCells(), 0, Min(col, cols - 1) + 1, blank);
        SetActiveRow(r);
        dirty := MarkRange(dirty, row, 0, SatAdd(col, 1));
      } else if mode == 2 {
        var r := Repeat(blank, cols);
        assert r == PenBlankRow(State()) by { PenRow(State(), blank); }
        SetActiveRow(r);
        dirty := MarkRow(dirty, row);
      }
    }

    method PreserveVisibleRows()
      requires Shape(State()) && |history.scrollback.cells| <= history.limit
      modifies this`history
      ensures State() == Preserve(old(State()))
    {
      hide ScreenShape, Filled, FirstFilled, LastFilled, PushScrollback;
      if history.policy.Discard? || modes.alt || history.limit == 0 {
        return;
      }
      if !history.mutated {
        return;
      }
      var first := PositionFilled(primary.cells);
      if first.None? {
        return;
      }
      FirstFilledIsBeforeLast(primary.cells, 0, |primary.cells|);
      var last := RpositionFilled(primary.cells);
      var block := primary.cells[first.value..last.value + 1];
      if history.lastPreserved == Some(block) {
        history := history.(mutated := false);
        return;
      }
      var saved := PushBlock(history.scrollback, history.limit, block);
      history := history.(scrollback := saved, lastPreserved := Some(block), mutated := false);
    }

    method BlankRowsNow(from: nat, to: nat)
      requires Shape(State()) && from <= to <= rows
      modifies this`primary, this`alternate
      ensures State() == BlankRows(old(State()), from, to)
    {
      hide ScreenShape;
      ActiveDims(State());
      var s := if modes.alt then alternate else primary;
      var cells := BlankRange(s.cells, from, to, Repeat(BlankCell(pen.background), cols));
      SetActive(s.(cells := cells));
    }

    method EraseBelow()
      requires Shape(State()) && |history.scrollback.cells| <= history.limit
      modifies this`primary, this`alternate, this`history
      ensures State().(dirty := AllDirty) == EraseDisplay(old(State()), 0)
    {
      hide ScreenShape, EraseCells, BlankRows, Preserve, WithActiveRow;
      ghost var g := State();
      if row == 0 && col == 0 {
        PreserveVisibleRows();
      }
      PreserveFrame(g);
      var r := EditErase(CursorRowCells(), col, cols, BlankCell(pen.background));
      WithActiveRowFrame(State(), r);
      SetActiveRow(r);
      BlankRowsNow(row + 1, rows);
    }

    method EraseAbove()
      requires Shape(State())
      modifies this`primary, this`alternate
      ensures State().(dirty := AllDirty) == EraseDisplay(old(State()), 1)
    {
      hide ScreenShape, EraseCells, BlankRows, WithActiveRow;
      BlankFrame(State(), 0, row);
      BlankRowsNow(0, row);
      var r := EditErase(CursorRowCells(), 0, Min(col, cols - 1) + 1, BlankCell(pen.background));
      SetActiveRow(r);
    }

    method EraseScreen()
      requires Shape(State()) && |history.scrollback.cells| <= history.limit
      modifies this`primary, this`alternate, this`history
      ensures State().(dirty := AllDirty) == EraseDisplay(old(State()), 2)
    {
      hide ScreenShape, BlankRows, Preserve;
      PreserveFrame(State());
      PreserveVisibleRows();
      BlankRowsNow(0, rows);
    }

    method EraseSaved()
      requires Shape(State())
      modifies this`primary, this`alternate, this`history, this`passthrough
      ensures State().(dirty := AllDirty) == EraseDisplay(old(State()), 3)
    {
      hide ScreenShape, BlankRows;
      BlankFrame(State().(history := Forget(history)), 0, rows);
      history := Forget(history);
      BlankRowsNow(0, rows);
      passthrough := passthrough + [ScrollbackCleared];
    }

    method EraseDisplayNow(mode: u16)
      requires Shape(State()) && |history.scrollback.cells| <= history.limit
      modifies this`primary, this`alternate, this`history, this`passthrough, this`dirty
      ensures State() == EraseDisplay(old(State()), mode)
    {
      hide Shape, EraseDisplay;
      ghost var g := State();
      EraseDisplayMarks(g, mode);
      if mode == 0 {
        EraseBelow();
      } else if mode == 1 {
        EraseAbove();
      } else if mode == 2 {
        EraseScreen();
      } else if mode == 3 {
        EraseSaved();
      }
      ghost var h := State();
      dirty := AllDirty;
      assert State() == h.(dirty := AllDirty);
    }

    method EraseCharsNow(p0: u16)
      requires Shape(State())
      modifies this`primary, this`alternate, this`dirty
      ensures State() == EraseChars(old(State()), p0)
    {
      hide ScreenShape, EraseCells, MarkRange, WithActiveRow;
      var end: u16 := Min(col + Max(p0, 1), cols);
      var r := EditErase(CursorRowCells(), Min(col, end), end, BlankCell(pen.background));
      SetActiveRow(r);
      dirty := MarkRange(dirty, row, col, end);
    }

    method InsertCharsNow(p0: u16)
      requires Shape(State())
      modifies this`primary, this`alternate, this`dirty
      ensures State() == InsertChars(old(State()), p0)
    {
      hide ScreenShape, InsertCells, MarkRange, WithActiveRow;
      var r := EditInsert(CursorRowCells(), col, Max(p0, 1));
      assert |r| == cols by { EditLengths(CursorRowCells(), col, Max(p0, 1)); }
      SetActiveRow(r);
      dirty := MarkRange(dirty, row, col, cols);
    }

    method DeleteCharsNow(p0: u16)
      requires Shape(State())
      modifies this`primary, this`alternate, this`dirty
      ensures State() == DeleteChars(old(State()), p0)
    {
      hide ScreenShape, DeleteCells, MarkRange, WithActiveRow;
      var r := EditDelete(CursorRowCells(), col, Max(p0, 1));
      assert |r| == cols by { EditLengths(CursorRowCells(), col, Max(p0, 1)); }
      SetActiveRow(r);
      dirty := MarkRange(dirty, row, col, cols);
    }

    // ---- size ----

    /** Both row stores take the new size. */
    method ResizeStores(r: u16, c: u16)
      requires |primary.cells| == |primary.wraps| && |alternate.cells| == |alternate.wraps|
      modifies this`rows, this`cols, this`primary, this`alternate
      ensures State() == StoresResized(old(State()), r, c)
    {
      hide ResizeScreen;
      assert |primary.cells| == |primary.wraps|;
      rows := r;
      cols := c;
      primary := ResizeStore(primary, r, c);
      alternate := ResizeStore(alternate, r, c);
    }

    method SetSizeTo(rows0: u16, cols0: u16)
      requires Shape(State()) && cols0 <= MAX_COLS
      modifies this
      ensures State() == Resize(old(State()), rows0, cols0)
    {
      hide StoresResized, Shape, Resize;
      ghost var g := State();
      ResizeIs(g, rows0, cols0);
      ResizeStores(Max(rows0, 1), Max(cols0, 1));
      ClampCursor();
      pendingWrap := false;
      lastPrint := None;
      scrollTop := 0;
      scrollBottom := rows - 1;
      dirty := AllDirty;
    }

    // ---- controls, moves and modes ----

    method ExecuteByte(byte: u8)
      requires Shape(State()) && |history.scrollback.cells| <= history.limit
      modifies this
      ensures State() == Execute(old(State()), byte)
    {
      hide ScreenShape, Newline;
      if 0x0a <= byte <= 0x0c {
        UnparkCursor();
        NewlineAction(Hard);
      } else if byte == 0x0d {
        UnparkCursor();
        col := 0;
      } else if byte == 0x08 {
        if pendingWrap {
          UnparkCursor();
        } else if col > 0 {
          col := col - 1;
        }
      } else if byte == 0x09 {
        UnparkCursor();
        var nextTab: u16 := (col / 8 + 1) * 8;
        col := Min(nextTab, cols - 1);
      } else if byte == 0x07 {
        passthrough := passthrough + [BellRang];
      }
    }

    method MoveCursorNow(m: Move)
      requires Shape(State())
      modifies this`row, this`col, this`pendingWrap, this`lastPrint
      ensures State() == MoveCursor(old(State()), m)
    {
      hide ScreenShape, RowAfter, ColAfter;
      UnparkCursor();
      row, col := RowAfter(m, row, rows), ColAfter(m, col, cols);
    }

    method SetRegionNow(p0: u16, p1: u16)
      requires Shape(State())
      modifies this`row, this`col, this`pendingWrap, this`lastPrint, this`scrollTop, this`scrollBottom
      ensures State() == SetRegion(old(State()), p0, p1)
    {
      hide Shape, MarginsSet, Homed, SetRegion;
      SetRegionIs(State(), p0, p1);
      SetMargins(p0, p1);
      HomeCursor();
    }

    /** An empty or inverted region means the whole screen. */
    method SetMargins(p0: u16, p1: u16)
      requires rows >= 1
      modifies this`scrollTop, this`scrollBottom
      ensures State() == MarginsSet(old(State()), p0, p1)
    {
      var top := SatSub(p0, 1);
      var bottom: u16 := if p1 == 0 then rows - 1 else Min(SatSub(p1, 1), rows - 1);
      if top < bottom {
        scrollTop, scrollBottom := top, bottom;
      } else {
        scrollTop, scrollBottom := 0, rows - 1;
      }
    }

    /** The alternate-screen bracket of `set_dec_mode`. */
    method BracketScreen(on: bool)
      requires Shape(State())
      modifies this
      ensures State() == SetAltBracket(old(State()), on)
    {
      hide Shape, SetAltScreen, ClearPendingWrap, RestoreSavedCursor, KittyCleared;
      BracketShapes(State());
      if on {
        SaveCursorNow();
        SwitchScreen(true);
        UnparkCursor();
      } else {
        SwitchScreen(false);
        RestoreCursor();
        BracketIs(old(State()));
        ClearKitty();
      }
    }

    method SaveCursorNow()
      modifies this`savedRow, this`savedCol
      ensures State() == SaveCursor(old(State()))
    {
      savedRow, savedCol := row, col;
    }

    method SwitchScreen(on: bool)
      modifies this`modes, this`activeLink, this`dirty
      ensures State() == SetAltScreen(old(State()), on)
    {
      modes, activeLink, dirty := modes.(alt := on), None, AllDirty;
    }

    /** One reset is announced for every keyboard level dropped. */
    method ClearKitty()
      modifies this`kitty, this`passthrough
      ensures State() == KittyCleared(old(State()))
    {
      var depth := |kitty|;
      kitty := [];
      ghost var said := passthrough;
      var i := 0;
      while i < depth
        invariant 0 <= i <= depth && passthrough == said + Repeat(KittyReset, i) && kitty == []
      {
        passthrough := passthrough + [KittyReset];
        assert Repeat(KittyReset, i) + [KittyReset] == Repeat(KittyReset, i + 1);
        i := i + 1;
      }
    }

    method ApplyDecMode(mode: u16, on: bool)
      requires Shape(State())
      modifies this
      ensures State() == SetDecMode(old(State()), mode, on)
    {
      hide Shape, FlagsAfter, MouseAfter, EncodingAfter, Announced, SetAltBracket, SetAltScreen;
      if mode == 47 || mode == 1047 {
        SwitchScreen(on);
      } else if mode == 1049 {
        BracketScreen(on);
      } else {
        ApplyFlag(mode, on);
      }
    }

    /** The modes that set a flag, the mouse reporting or the text cursor, announcing three of them. */
    method ApplyFlag(mode: u16, on: bool)
      requires Shape(State()) && !(mode == 47 || mode == 1047 || mode == 1049)
      modifies this`modes, this`mouseMode, this`mouseEncoding, this`textCursor, this`passthrough
      ensures State() == SetDecMode(old(State()), mode, on)
    {
      hide Shape, FlagsAfter, MouseAfter, EncodingAfter, Announced;
      SetMouse(mode, on);
      modes := FlagsAfter(modes, mode, on);
      passthrough := passthrough + Announced(mode, on);
    }

    method SetMouse(mode: u16, on: bool)
      modifies this`mouseMode, this`mouseEncoding, this`textCursor
      ensures var g := old(State());
              State() == g.(mouseMode := MouseAfter(g.mouseMode, mode, on),
                  mouseEncoding := EncodingAfter(g.mouseEncoding, mode, on),
                            textCursor := if mode == 12 then Some(on) else g.textCursor)
    {
      hide MouseAfter, EncodingAfter;
      mouseMode := MouseAfter(mouseMode, mode, on);
      mouseEncoding := EncodingAfter(mouseEncoding, mode, on);
      if mode == 12 {
        textCursor := Some(on);
      }
    }

    method ApplyDecModes(list: seq<u16>, on: bool)
      requires Shape(State())
      modifies this
      ensures State() == SetDecModes(old(State()), list, on)
    {
      hide Shape, SetDecMode;
      var i := 0;
      assert list[0..] == list;
      while i < |list|
        invariant 0 <= i <= |list| && Shape(State())
        invariant SetDecModes(State(), list[i..], on) == SetDecModes(old(State()), list, on)
      {
        assert list[i..][1..] == list[i + 1..];
        ApplyDecMode(list[i], on);
        i := i + 1;
      }
    }

    method ResetMargins()
      requires rows >= 1
      modifies this`scrollTop, this`scrollBottom, this`pen
      ensures State() == MarginsReset(old(State()))
    {
      scrollTop, scrollBottom := 0, rows - 1;
      pen := DEFAULT_ATTRS;
    }

    method ResetSavedCursor()
      modifies this`savedRow, this`savedCol, this`lastPrint
      ensures State() == SavedReset(old(State()))
    {
      savedRow, savedCol, lastPrint := 0, 0, None;
    }

    method SoftResetFlags()
      modifies this`modes
      ensures State() == FlagsReset(old(State()))
    {
      modes := modes.(noAutowrap := false, hideCursor := false, appCursor := false, appKeypad := false);
    }

    method SoftResetNow()
      requires Shape(State())
      modifies this
      ensures State() == SoftReset(old(State()))
    {
      hide Shape, SoftReset, MarginsReset, FlagsReset, SavedReset, ClearPendingWrap;
      SoftResetIs(State());
      ResetMargins();
      if modes.noAutowrap {
        UnparkCursor();
      }
      ResetSavedCursor();
      SoftResetFlags();
    }

    method BlankScreens()
      requires rows >= 1
      modifies this`primary, this`alternate, this`dirty
      ensures State() == ScreensReset(old(State()))
    {
      hide BlankScreen;
      primary, alternate, dirty := BlankScreen(rows, cols), BlankScreen(rows, cols), AllDirty;
    }

    method ResetView()
      modifies this`history, this`activeLink
      ensures State() == ViewReset(old(State()))
    {
      history, activeLink := history.(offset := 0), None;
    }

    method HomeCursor()
      modifies this`row, this`col, this`pendingWrap, this`lastPrint
      ensures State() == Homed(old(State()))
    {
      BreakCluster();
      row, col := 0, 0;
    }

    method ResetModes()
      modifies this`modes, this`mouseMode, this`mouseEncoding, this`textCursor
      ensures State() == ModesReset(old(State()))
    {
      ResetMouse();
      modes := DEFAULT_MODES;
    }

    method ResetMouse()
      modifies this`mouseMode, this`mouseEncoding, this`textCursor
      ensures State() == MouseReset(old(State()))
    {
      mouseMode, mouseEncoding, textCursor := MouseNone, MouseDefault, None;
    }

    method FullResetNow()
      requires Shape(State())
      modifies this
      ensures State() == FullReset(old(State()))
    {
      hide Shape, FullReset, ScreensReset, ViewReset, Homed, MarginsReset, ModesReset;
      FullResetIs(State());
      BlankScreens();
      ResetView();
      HomeCursor();
      ResetMargins();
      ResetModes();
    }

    // ---- dispatch ----

    method PerformRowEdit(e: Event)
      requires Shape(State()) && (e.EraseInLine? || e.EraseCharacters? || e.InsertCharacters? || e.DeleteCharacters?)
      modifies this`primary, this`alternate, this`dirty
      ensures State() == Step(old(State()), e)
    {
      hide Step, Shape, EraseLine, EraseChars, InsertChars, DeleteChars;
      StepRowEdit(State(), e);
      match e {
        case EraseInLine(mode) => EraseLineNow(mode);
        case EraseCharacters(n) => EraseCharsNow(n);
        case InsertCharacters(n) => InsertCharsNow(n);
        case DeleteCharacters(n) => DeleteCharsNow(n);
      }
    }

    method PerformLineEdit(e: Event)
      requires Shape(State()) && |history.scrollback.cells| <= history.limit
      requires e.InsertLines? || e.DeleteLines? || e.ScrollUpBy? || e.ScrollDown?
      modifies this`primary, this`alternate, this`history, this`scrollOps, this`dirty
      ensures State() == Step(old(State()), e)
    {
      hide Step, Shape, InsertLinesAt, DeleteLinesAt, ScrollUp, ScrollDownBy;
      StepLines(State(), e);
      match e {
        case InsertLines(n) => InsertLinesNow(n);
        case DeleteLines(n) => DeleteLinesNow(n);
        case ScrollUpBy(n) => ScrollRegionUp(Max(n, 1), Hard);
        case ScrollDown(n) => ScrollDownNow(n);
      }
    }

    method ScrollDownNow(p0: u16)
      requires Shape(State())
      modifies this`primary, this`alternate, this`scrollOps, this`dirty
      ensures State() == ScrollDownBy(old(State()), p0)
    {
      hide Shape, ShiftActiveDown;
      ShapeFacts(State());
      ShiftRowsDown(scrollTop, scrollBottom, Min(Max(p0, 1), scrollBottom - scrollTop + 1));
    }

    method PerformScreen(e: Event)
      requires Shape(State()) && EventOk(e) && |history.scrollback.cells| <= history.limit
      requires e.EraseInDisplay? || e.ReverseLine? || e.SetSize? || e.ResetSoft? || e.ResetFull?
      modifies this
      ensures State() == Step(old(State()), e)
    {
      hide Step, Shape, EraseDisplay, ReverseIndex, Resize, SoftReset, FullReset;
      StepText(State(), e);
      StepLines(State(), e);
      StepReset(State(), e);
      match e {
        case EraseInDisplay(mode) => EraseDisplayNow(mode);
        case ReverseLine => ReverseIndexNow();
        case SetSize(r, c) => SetSizeTo(r, c);
        case ResetSoft => SoftResetNow();
        case ResetFull => FullResetNow();
      }
    }

    method PerformKitty(push: bool, n: u16)
      modifies this`kitty, this`passthrough
      ensures State() == if push then KittyPush(old(State()), n) else KittyPop(old(State()), n)
    {
      if push {
        if |kitty| < KITTY_STACK_CAP {
          kitty := kitty + [Max(n, 1)];
        }
        passthrough := passthrough + [KittyForward(true, Max(n, 1))];
      } else {
        kitty := kitty[..|kitty| - Min(Max(n, 1), |kitty|)];
        passthrough := passthrough + [KittyForward(false, Max(n, 1))];
      }
    }

    method PerformReport(n: u16, dec: bool)
      requires Shape(State())
      modifies this`passthrough
      ensures State() == StatusReport(old(State()), n, dec)
    {
      hide ScreenShape;
      if n == 5 {
        passthrough := passthrough + [StatusReply];
      } else if n == 6 {
        passthrough := passthrough + [CursorReply(row + 1, Min(col, cols - 1) + 1, dec)];
      }
    }

    method PerformReply(e: Event)
      requires Shape(State()) && (e.KittyUp? || e.KittyDown? || e.Report? || e.AskMode?)
      modifies this`kitty, this`passthrough
      ensures State() == Step(old(State()), e)
    {
      hide Step, Shape, KittyPush, KittyPop, StatusReport;
      StepReply(State(), e);
      if e.KittyUp? {
        PerformKitty(true, e.n);
      } else if e.KittyDown? {
        PerformKitty(false, e.n);
      } else if e.Report? {
        PerformReport(e.n, e.dec);
      } else {
        ReplyMode(e.mode, e.dec);
      }
    }

    method PerformSetting(e: Event)
      requires Shape(State())
      requires e.Keypad? || e.Style? || e.Link? || e.KittyUp? || e.KittyDown? || e.Report? || e.AskMode? || e.Ignored?
      modifies this
      ensures State() == Step(old(State()), e)
    {
      hide Step, Shape;
      if e.KittyUp? || e.KittyDown? || e.Report? || e.AskMode? {
        PerformReply(e);
      } else {
        PerformFlag(e);
      }
    }

    method PerformFlag(e: Event)
      requires Shape(State()) && (e.Keypad? || e.Style? || e.Link? || e.Ignored?)
      modifies this`modes, this`cursorStyle, this`activeLink
      ensures State() == Step(old(State()), e)
    {
      hide Shape, Step;
      FlagStep(State(), e);
      if e.Keypad? {
        SetKeypad(e.on);
      } else if e.Style? {
        SetStyle(e.n);
      } else if e.Link? {
        SetLink(e.link);
      }
    }

    method SetStyle(n: u16)
      modifies this`cursorStyle
      ensures State() == old(State()).(cursorStyle := n)
    {
      cursorStyle := n;
    }

    method SetLink(link: Option<Hyperlink>)
      modifies this`activeLink
      ensures State() == old(State()).(activeLink := link)
    {
      activeLink := link;
    }

    method SetKeypad(on: bool)
      modifies this`modes
      ensures State() == old(State()).(modes := old(modes).(appKeypad := on))
    {
      modes := modes.(appKeypad := on);
    }

    method ReplyMode(mode: u16, dec: bool)
      requires Shape(State())
      modifies this`passthrough
      ensures State() == Step(old(State()), AskMode(mode, dec))
    {
      hide Shape, ModeStatus;
      var status := Status(mode);
      passthrough := passthrough + [ModeReply(mode, if dec then status else 0, dec)];
    }

    /** `decrqm_status`. */
    function Status(mode: u16): u16
      reads this
    {
      ModeStatus(modes, textCursor, mouseMode, mouseEncoding, profile, mode)
    }

    method PerformCursor(e: Event)
      requires Shape(State()) && (e.Cursor? || e.Region? || e.Restore? || e.Save?)
      modifies this
      ensures State() == Step(old(State()), e)
    {
      hide Step, Shape, MoveCursor, SetRegion, RestoreSavedCursor, SaveCursor;
      StepCursor(State(), e);
      match e {
        case Cursor(m) => MoveCursorNow(m);
        case Region(top, bottom) => SetRegionNow(top, bottom);
        case Restore => RestoreCursor();
        case Save => SaveCursorNow();
      }
    }

    method PerformText(e: Event)
      requires Shape(State()) && |history.scrollback.cells| <= history.limit
      requires e.Print? || e.Control? || e.Graphics? || e.PrivateModes?
      modifies this
      ensures State() == Step(old(State()), e)
    {
      hide Shape, WriteChar, Execute, SetDecModes, Sgr.ApplySgr;
      match e {
        case Print(ch) => WriteCharAtCursor(ch);
        case Control(byte) => ExecuteByte(byte);
        case Graphics(params) => pen := Sgr.RunSgr(params, pen);
        case PrivateModes(list, on) => ApplyDecModes(list, on);
      }
    }

    /** One event. */
    method Perform(e: Event)
      requires WF(State()) && EventOk(e)
      modifies this
      ensures State() == Step(old(State()), e) && WF(State())
    {
      hide ScreenOk, ScreenShape, Step;
      StepKeeps(State(), e);
      if e.Print? || e.Control? || e.Graphics? || e.PrivateModes? {
        PerformText(e);
      } else if e.Cursor? || e.Region? || e.Restore? || e.Save? {
        PerformCursor(e);
      } else if e.EraseInLine? || e.EraseCharacters? || e.InsertCharacters? || e.DeleteCharacters? {
        PerformRowEdit(e);
      } else if e.InsertLines? || e.DeleteLines? || e.ScrollUpBy? || e.ScrollDown? {
        PerformLineEdit(e);
      } else if e.EraseInDisplay? || e.ReverseLine? || e.SetSize? || e.ResetSoft? || e.ResetFull? {
        PerformScreen(e);
      } else {
        PerformSetting(e);
      }
    }

    /** A whole run on the object is a run of the model, so every theorem about runs holds of it. */
    method PerformAll(es: seq<Event>)
      requires WF(State()) && EventsOk(es)
      modifies this
      ensures State() == Run(old(State()), es) && WF(State())
    {
      hide WF, Shape, Step;
      WFShape(State());
      var i := 0;
      assert es[0..] == es;
      while i < |es|
        invariant 0 <= i <= |es| && WF(State()) && Shape(State()) && EventsOk(es[i..])
        invariant Run(State(), es[i..]) == Run(old(State()), es)
      {
        assert es[i..][1..] == es[i + 1..];
        Perform(es[i]);
        WFShape(State());
        i := i + 1;
      }
    }
  }

  function StoresResized(g: Grid, rows: u16, cols: u16): Grid
    requires |g.primary.cells| == |g.primary.wraps| && |g.alternate.cells| == |g.alternate.wraps|
  {
    g.(rows := rows, cols := cols, primary := ResizeScreen(g.primary, rows, cols),
        alternate := ResizeScreen(g.alternate, rows, cols))
  }

  lemma {:induction false} ResizeIs(g: Grid, rows0: u16, cols0: u16)
    requires Shape(g) && cols0 <= MAX_COLS
    ensures |g.primary.cells| == |g.primary.wraps| && |g.alternate.cells| == |g.alternate.wraps|
    ensures var rows: u16, cols: u16 := Max(rows0, 1), Max(cols0, 1);
            var h := StoresResized(g, rows, cols);
            && h.rows == rows && h.cols == cols && h.row == g.row && h.col == g.col
            && Resize(g, rows0, cols0) ==
                 h.(row := Min(g.row, rows - 1), col := Min(g.col, cols - 1), pendingWrap := false, lastPrint := None,
                    scrollTop := 0, scrollBottom := rows - 1, dirty := AllDirty)
  {
    hide ResizeScreen;
    ResizeScreenShape(g.primary, g.rows, g.cols, Max(rows0, 1), Max(cols0, 1));
    ResizeScreenShape(g.alternate, g.rows, g.cols, Max(rows0, 1), Max(cols0, 1));
  }

  lemma {:induction false} ShapeFacts(g: Grid)
    requires Shape(g)
    ensures g.row < g.rows && g.col <= g.cols <= MAX_COLS && g.cols >= 1 && g.scrollTop <= g.scrollBottom < g.rows
    ensures |ActiveRow(g)| == g.cols
  {
    hide ScreenShape;
  }

  lemma {:induction false} NewlineModes(g: Grid)
    requires Shape(g)
    ensures Newline(g, Soft).modes == g.modes
  {
    hide EvictRows, MarkRows;
    NewlineFrame(g, Soft);
  }

  // ---- frame facts ----

  lemma {:induction false} FlagStep(g: Grid, e: Event)
    requires Shape(g) && EventOk(e)
    ensures e.Keypad? ==> Step(g, e) == g.(modes := g.modes.(appKeypad := e.on))
    ensures e.Style? ==> Step(g, e) == g.(cursorStyle := e.n)
    ensures e.Link? ==> Step(g, e) == g.(activeLink := e.link)
    ensures e.Ignored? ==> Step(g, e) == g
  {
    hide Shape;
  }

  function ScrollLogged(g: Grid, n: u16): Grid {
    Touch(g).(scrollOps := if n > 0 then g.scrollOps + [ScrolledUp(g.scrollTop, g.scrollBottom, n)] else g.scrollOps,
              dirty := MarkRows(g.dirty, g.scrollTop, g.scrollBottom))
  }

  lemma {:induction false} ScrollUpIs(g: Grid, count: u16, wrap: RowWrap)
    requires Shape(g)
    ensures var n: u16 := Min(count, g.scrollBottom - g.scrollTop + 1);
            var h := if g.scrollTop < g.scrollBottom then EvictRows(g, n, wrap) else g;
            && h.scrollTop == g.scrollTop && h.scrollBottom == g.scrollBottom
            && ScrollUp(g, count, wrap) == ScrollLogged(h, n)
            && ScrollLogged(h, n).history.scrollback == h.history.scrollback
            && ScrollLogged(h, n).history.limit == h.history.limit
  {
    hide EvictRows, MarkRows, ScreenShape;
    EvictFrame(g, Min(count, g.scrollBottom - g.scrollTop + 1), wrap);
  }

  function MarginsReset(g: Grid): Grid
    requires g.rows >= 1
  {
    g.(pen := DEFAULT_ATTRS, scrollTop := 0, scrollBottom := g.rows - 1)
  }

  function MarginsSet(g: Grid, p0: u16, p1: u16): Grid
    requires g.rows >= 1
  {
    var top := SatSub(p0, 1);
    var bottom: u16 := if p1 == 0 then g.rows - 1 else Min(SatSub(p1, 1), g.rows - 1);
    if top < bottom then g.(scrollTop := top, scrollBottom := bottom)
        else g.(scrollTop := 0, scrollBottom := g.rows - 1)
  }

  lemma {:induction false} SetRegionIs(g: Grid, p0: u16, p1: u16)
    requires Shape(g)
    ensures g.rows >= 1 && SetRegion(g, p0, p1) == Homed(MarginsSet(g, p0, p1))
  {
    hide ScreenShape;
  }

  function FlagsReset(g: Grid): Grid {
    g.(modes := g.modes.(noAutowrap := false, hideCursor := false, appCursor := false, appKeypad := false))
  }

  function SavedReset(g: Grid): Grid {
    g.(lastPrint := None, savedRow := 0, savedCol := 0)
  }

  function ScreensReset(g: Grid): Grid
    requires g.rows >= 1
  {
    g.(primary := BlankScreen(g.rows, g.cols), alternate := BlankScreen(g.rows, g.cols), dirty := AllDirty)
  }

  function ViewReset(g: Grid): Grid {
    g.(history := g.history.(offset := 0), activeLink := None)
  }

  function Unprinted(g: Grid): Grid {
    g.(pendingWrap := false, lastPrint := None)
  }

  function Placed(g: Grid, row: u16, col: u16): Grid
    requires g.rows >= 1 && g.cols >= 1
  {
    g.(row := Min(row, g.rows - 1), col := if col >= g.cols then g.cols else col, pendingWrap := col >= g.cols)
  }

  lemma {:induction false} RestoreIs(g: Grid)
    requires Shape(g)
    ensures var u := Unprinted(g);
            && u.rows == g.rows >= 1 && u.cols == g.cols >= 1 && !u.pendingWrap && u.savedRow == g.savedRow
               && u.savedCol == g.savedCol
            && RestoreSavedCursor(g) == Placed(u, g.savedRow, g.savedCol)
  {
    hide ScreenShape;
  }

  lemma {:induction false} EraseDisplayMarks(g: Grid, mode: u16)
    requires Shape(g)
    ensures mode > 3 ==> EraseDisplay(g, mode) == g.(dirty := AllDirty)
  {
    hide ScreenShape, EraseCells, BlankRows, Preserve, WithActiveRow;
  }

  function Homed(g: Grid): Grid {
    Unprinted(g).(row := 0, col := 0)
  }

  function MouseReset(g: Grid): Grid {
    g.(mouseMode := MouseNone, mouseEncoding := MouseDefault, textCursor := None)
  }

  function ModesReset(g: Grid): Grid {
    MouseReset(g).(modes := DEFAULT_MODES)
  }

  function KittyCleared(g: Grid): Grid {
    g.(kitty := [], passthrough := g.passthrough + Repeat(KittyReset, |g.kitty|))
  }

  lemma {:induction false} SoftResetIs(g: Grid)
    requires Shape(g)
    ensures g.rows >= 1
    ensures var a := MarginsReset(g);
            && a.modes == g.modes && Shape(a)
            && SoftReset(g) == FlagsReset(SavedReset(if g.modes.noAutowrap then ClearPendingWrap(a) else a))
  {
    hide ScreenShape;
  }

  lemma {:induction false} FullResetIs(g: Grid)
    requires Shape(g)
    ensures g.rows >= 1
    ensures var a := ViewReset(ScreensReset(g));
            a.rows == g.rows && Homed(a).rows == g.rows && FullReset(g) == ModesReset(MarginsReset(Homed(a)))
  {
    hide ScreenShape, BlankScreen;
  }

  lemma {:induction false} BracketShapes(g: Grid)
    requires Shape(g)
    ensures Shape(SetAltScreen(g, false)) && Shape(SaveCursor(g)) && Shape(SetAltScreen(SaveCursor(g), true))
  {
    hide ScreenShape;
  }

  lemma {:induction false} BracketIs(g: Grid)
    requires Shape(g) && Shape(SetAltScreen(g, false))
    ensures SetAltBracket(g, false) == KittyCleared(RestoreSavedCursor(SetAltScreen(g, false)))
  {
    hide ScreenShape;
  }

  /** The cursor past a glyph of `width` columns. */
  function Advanced(g: Grid, width: nat): Grid
    requires g.col < g.cols <= MAX_COLS
  {
    var next: u16 := Min(g.col + width, g.cols);
    g.(col := next, pendingWrap := g.pendingWrap || next == g.cols, lastPrint := Some((g.row, next)))
  }

  lemma {:induction false} PutIs(g: Grid, ch: char, width: nat)
    requires Shape(g) && g.col < g.cols && 1 <= width <= 2
    ensures var was, cell := ActiveRow(g), Cell([ch], width > 1, false, g.pen, g.activeLink);
            var h := WithActiveRow(g, PutGlyph(was, g.col, cell))
                       .(dirty := MarkRange(g.dirty, g.row, PutStart(was, g.col), PutEnd(was, g.col, width)));
            h.col == g.col && h.cols == g.cols <= MAX_COLS && PutChar(g, ch, width) == Advanced(h, width)
  {
    hide PutGlyph, MarkRange, PutStart, PutEnd, ScreenShape;
  }

  lemma {:induction false} PutNothing(g: Grid, ch: char, width: nat)
    requires Shape(g) && 1 <= width <= 2
    ensures g.col >= g.cols ==> PutChar(g, ch, width) == g
  {
    hide PutGlyph, MarkRange, PutStart, PutEnd, ScreenShape;
  }

  lemma {:induction false} ActiveDims(g: Grid)
    requires Shape(g)
    ensures |Active(g).cells| == |Active(g).wraps| == g.rows
  {
  }

  lemma {:induction false} PushWithin(g: Grid, n: u16)
    requires Shape(g) && n <= g.scrollBottom - g.scrollTop + 1
    ensures var s := Active(g);
            |PushScrollback(g.history.scrollback, g.history.limit, s.cells[g.scrollTop..g.scrollTop + n],
                s.wraps[g.scrollTop..g.scrollTop + n]).cells|
            <= g.history.limit
  {
  }

  lemma {:induction false} PenRow(g: Grid, blank: Cell)
    requires blank == PenBlank(g)
    ensures Repeat(blank, g.cols) == PenBlankRow(g)
  {
  }

  lemma {:induction false} BlankFrame(g: Grid, from: nat, to: nat)
    requires Shape(g) && from <= to <= g.rows
    ensures var h := BlankRows(g, from, to); h == g.(primary := h.primary, alternate := h.alternate)
  {
    hide ScreenShape;
  }
}
