/** The erase policy decides what reaches scrollback and nothing else. */
module ErasePolicyProof {
  import opened Basics
  import opened Cells
  import opened Rows
  import opened Damage
  import opened GridModel
  import opened Invariant
  import Sgr

  /** `g` with another history. */
  function Swap(g: Grid, h: History): Grid {
    g.(history := h)
  }

  ghost predicate HistoryFits(g: Grid, h: History) {
    |h.scrollback.cells| == |h.scrollback.wraps| && h.limit == g.history.limit && h.offset == g.history.offset
  }

  /** A discarding history that never holds more than the saving one beside it. */
  ghost predicate LessHistory(a: History, b: History) {
    && a.policy == Discard && b.policy == SaveToScrollback && a.limit == b.limit && a.offset == b.offset
    && |a.scrollback.cells| <= |b.scrollback.cells| <= b.limit
  }

  lemma {:induction false} ExtendIgnores(g: Grid, h: History, lead: u16, contents: string)
    requires Shape(g) && HistoryFits(g, h) && lead < g.cols
    ensures Shape(Swap(g, h))
    ensures ExtendCluster(Swap(g, h), lead, contents) == Swap(ExtendCluster(g, lead, contents), h)
    ensures ExtendCluster(g, lead, contents).history == g.history
  {
    hide JoinCluster, CellWidth, MarkRange, CursorAfterJoin, ScreenShape;
  }

  lemma {:induction false} AppendIgnores(g: Grid, h: History, ch: char, width: nat)
    requires Shape(g) && HistoryFits(g, h)
    ensures Shape(Swap(g, h))
    ensures var r := Append(g, ch, width);
            Append(Swap(g, h), ch, width) == if r.Some? then Some(Swap(r.value, h)) else None
    ensures Append(g, ch, width).Some? ==> Append(g, ch, width).value.history == g.history
  {
    hide ExtendCluster, ScreenShape;
    match JoinTarget(g) {
      case None =>
      case Some(target) =>
        var row := ActiveRow(g);
        var lead := LeadOf(row, target);
        ExtendIgnores(g, h, lead, row[lead].contents + [ch]);
    }
  }

  lemma {:induction false} PutIgnores(g: Grid, h: History, ch: char, width: nat)
    requires Shape(g) && HistoryFits(g, h) && 1 <= width <= 2
    ensures Shape(Swap(g, h))
    ensures PutChar(Swap(g, h), ch, width) == Swap(PutChar(g, ch, width), h)
    ensures PutChar(g, ch, width).history == g.history
  {
    hide PutGlyph, MarkRange, PutStart, PutEnd, ScreenShape;
  }

  // ---- what each event does to the two histories ----

  /** `x` and `y` show the same and their histories relate. */
  ghost predicate Agree(x: Grid, y: Grid) {
    Shape(x) && Shape(y) && y == Swap(x, y.history) && LessHistory(x.history, y.history)
  }

  /** Evicted rows reach both histories alike. */
  lemma {:induction false} AgreeEvict(a: Grid, b: Grid, n: u16, wrap: RowWrap)
    requires Agree(a, b) && n <= a.scrollBottom - a.scrollTop + 1
    ensures Agree(EvictRows(a, n, wrap), EvictRows(b, n, wrap))
  {
    hide ShiftUp, Remember, LessHistory;
    var top := a.scrollTop;
    var cells, wraps := Active(a).cells[top..top + n], Active(a).wraps[top..top + n];
    RememberLess(a.history, b.history, cells, wraps);
  }

  lemma {:induction false} RememberLess(a: History, b: History, cells: seq<Row>, wraps: seq<RowWrap>)
    requires LessHistory(a, b)
    ensures LessHistory(Remember(a, cells, wraps), Remember(b, cells, wraps))
    ensures a.limit == b.limit
  {
  }

  lemma {:induction false} AgreeScroll(a: Grid, b: Grid, count: u16, wrap: RowWrap)
    requires Agree(a, b)
    ensures Agree(ScrollUp(a, count, wrap), ScrollUp(b, count, wrap))
  {
    hide EvictRows, MarkRows, ScreenShape;
    var n := Min(count, a.scrollBottom - a.scrollTop + 1);
    AgreeEvict(a, b, n, wrap);
  }

  lemma {:induction false} AgreeNewline(a: Grid, b: Grid, wrap: RowWrap)
    requires Agree(a, b)
    ensures Agree(Newline(a, wrap), Newline(b, wrap))
  {
    hide ScrollUp, ScreenShape;
    AgreeScroll(a, b, 1, wrap);
  }

  lemma {:induction false} AgreeTouch(a: Grid, b: Grid)
    requires Agree(a, b)
    ensures Agree(Touch(a), Touch(b))
  {
    hide ScreenShape;
  }

  lemma {:induction false} AgreePut(a: Grid, b: Grid, ch: char, width: nat)
    requires Agree(a, b) && 1 <= width <= 2
    ensures Agree(PutChar(a, ch, width), PutChar(b, ch, width))
  {
    hide PutChar, ScreenShape;
    PutIgnores(a, b.history, ch, width);
  }

  lemma {:induction false} AgreeUnwrap(a: Grid, b: Grid, col: u16)
    requires Agree(a, b) && col <= a.cols
    ensures Agree(a.(pendingWrap := false, col := col), b.(pendingWrap := false, col := col))
  {
    hide ScreenShape;
  }

  lemma {:induction false} AgreeWrite(a: Grid, b: Grid, ch: char)
    requires Agree(a, b)
    ensures Agree(WriteChar(a, ch), WriteChar(b, ch))
  {
    hide Append, PutChar, Newline, ScreenShape, Touch;
    var width := a.profile.charWidth(ch);
    AgreeTouch(a, b);
    var a0, b0 := Touch(a), Touch(b);
    assert a0.col == a.col && a0.cols == a.cols && a0.profile == a.profile by { TouchFrame(a); }
    assert b0.profile == b.profile by { TouchFrame(b); }
    AppendIgnores(a0, b0.history, ch, width);
    if Append(a0, ch, width).None? {
      if a0.modes.noAutowrap {
        var col := Min(a0.col, a0.cols - 1);
        if width <= a0.cols - col {
          AgreeUnwrap(a0, b0, col);
          AgreePut(a0.(pendingWrap := false, col := col), b0.(pendingWrap := false, col := col), ch, width);
        }
      } else if a0.pendingWrap {
        AgreeUnwrap(a0, b0, 0);
        var a1, b1 := a0.(pendingWrap := false, col := 0), b0.(pendingWrap := false, col := 0);
        AgreeNewline(a1, b1, Soft);
        AgreePut(Newline(a1, Soft), Newline(b1, Soft), ch, width);
      } else {
        AgreePut(a0, b0, ch, width);
      }
    }
  }

  lemma {:induction false} TouchFrame(g: Grid)
    ensures Touch(g) == g.(history := Touch(g).history)
  {
  }

  /** Preserving touches only history; the discarding side adds nothing. */
  lemma {:induction false} AgreePreserve(a: Grid, b: Grid)
    requires Agree(a, b)
    ensures Agree(Preserve(a), Preserve(b))
  {
    hide ScreenShape, FilledBlock;
  }

  lemma {:induction false} AgreeBlankRows(a: Grid, b: Grid, from: nat, to: nat)
    requires Agree(a, b) && from <= to <= a.rows
    ensures Agree(BlankRows(a, from, to), BlankRows(b, from, to))
  {
    hide PenBlankRow;
    var cells := Active(a).cells;
    assert Active(a) == Active(b) && PenBlankRow(a) == PenBlankRow(b) by { PenRowsAgree(a, b); }
    var s := Active(a).(cells := cells[..from] + Repeat(PenBlankRow(a), to - from) + cells[to..]);
    assert BlankRows(a, from, to) == WithActive(a, s) && BlankRows(b, from, to) == WithActive(b, s);
    hide BlankRows, ScreenShape;
  }

  lemma {:induction false} PenRowsAgree(a: Grid, b: Grid)
    requires Agree(a, b)
    ensures Active(a) == Active(b) && PenBlankRow(a) == PenBlankRow(b) && PenBlank(a) == PenBlank(b)
  {
    hide Shape;
  }

  lemma {:induction false} AgreeRow(a: Grid, b: Grid, row: Row)
    requires Agree(a, b) && |row| == a.cols
    ensures Agree(WithActiveRow(a, row), WithActiveRow(b, row))
  {
    hide ScreenShape;
  }

  lemma {:induction false} AgreeEraseRow(a: Grid, b: Grid, start: u16, end: u16)
    requires Agree(a, b) && start <= end <= a.cols
    ensures Agree(WithActiveRow(a, EraseCells(ActiveRow(a), start, end, PenBlank(a))),
                  WithActiveRow(b, EraseCells(ActiveRow(b), start, end, PenBlank(b))))
  {
    hide EraseCells, WithActiveRow, ScreenShape;
    AgreeRow(a, b, EraseCells(ActiveRow(a), start, end, PenBlank(a)));
  }

  lemma {:induction false} AgreeDamage(a: Grid, b: Grid, dirty: Dirty)
    requires Agree(a, b)
    ensures Agree(a.(dirty := dirty), b.(dirty := dirty))
  {
    hide ScreenShape;
  }

  lemma {:induction false} AgreeEraseBelow(a: Grid, b: Grid)
    requires Agree(a, b)
    ensures Agree(EraseDisplay(a, 0), EraseDisplay(b, 0))
  {
    hide ScreenShape, Preserve, BlankRows, WithActiveRow, EraseCells;
    AgreePreserve(a, b);
    var a1 := if a.row == 0 && a.col == 0 then Preserve(a) else a;
    var b1 := if b.row == 0 && b.col == 0 then Preserve(b) else b;
    AgreeEraseRow(a1, b1, a1.col, a1.cols);
    var a2, b2 := WithActiveRow(a1, EraseCells(ActiveRow(a1), a1.col, a1.cols, PenBlank(a1))),
      WithActiveRow(b1, EraseCells(ActiveRow(b1), b1.col, b1.cols, PenBlank(b1)));
    AgreeBlankRows(a2, b2, a2.row + 1, a2.rows);
    AgreeDamage(BlankRows(a2, a2.row + 1, a2.rows), BlankRows(b2, b2.row + 1, b2.rows), AllDirty);
  }

  lemma {:induction false} AgreeEraseAbove(a: Grid, b: Grid)
    requires Agree(a, b)
    ensures Agree(EraseDisplay(a, 1), EraseDisplay(b, 1))
  {
    hide ScreenShape, BlankRows, WithActiveRow, EraseCells;
    AgreeBlankRows(a, b, 0, a.row);
    var a1, b1 := BlankRows(a, 0, a.row), BlankRows(b, 0, b.row);
    var end := Min(a1.col, a1.cols - 1) + 1;
    AgreeEraseRow(a1, b1, 0, end);
    AgreeDamage(WithActiveRow(a1, EraseCells(ActiveRow(a1), 0, end, PenBlank(a1))),
      WithActiveRow(b1, EraseCells(ActiveRow(b1), 0, end, PenBlank(b1))), AllDirty);
  }

  lemma {:induction false} AgreeEraseDisplay(a: Grid, b: Grid, mode: u16)
    requires Agree(a, b)
    ensures Agree(EraseDisplay(a, mode), EraseDisplay(b, mode))
  {
    hide ScreenShape, Preserve, BlankRows, WithActiveRow, EraseCells, Forget;
    if mode == 0 {
      AgreeEraseBelow(a, b);
    } else if mode == 1 {
      AgreeEraseAbove(a, b);
    } else if mode == 2 {
      AgreePreserve(a, b);
      PreserveFrame(a);
      PreserveFrame(b);
      AgreeBlankRows(Preserve(a), Preserve(b), 0, a.rows);
      AgreeDamage(BlankRows(Preserve(a), 0, a.rows), BlankRows(Preserve(b), 0, b.rows), AllDirty);
    } else if mode == 3 {
      AgreeForget(a, b);
      var a1, b1 := a.(history := Forget(a.history)), b.(history := Forget(b.history));
      AgreeBlankRows(a1, b1, 0, a.rows);
      AgreeSaid(BlankRows(a1, 0, a.rows), BlankRows(b1, 0, b.rows), a.passthrough + [ScrollbackCleared]);
    } else {
      AgreeDamage(a, b, AllDirty);
    }
  }

  lemma {:induction false} AgreeForget(a: Grid, b: Grid)
    requires Agree(a, b)
    ensures Agree(a.(history := Forget(a.history)), b.(history := Forget(b.history)))
  {
    hide ScreenShape;
  }

  lemma {:induction false} AgreeSaid(a: Grid, b: Grid, passthrough: seq<Passthrough>)
    requires Agree(a, b)
    ensures Agree(a.(passthrough := passthrough, dirty := AllDirty), b.(passthrough := passthrough, dirty := AllDirty))
  {
    hide ScreenShape;
  }

  // ---- events that leave history alone ----

  /** Every event except prints, line feeds, upward scrolls and display erases. */
  predicate HistoryFree(e: Event) {
    !(e.Print? || e.Control? || e.ScrollUpBy? || e.EraseInDisplay? || e.ResetFull? || e.PrivateModes?)
  }

  lemma {:induction false} RowIgnores(g: Grid, h: History, row: Row, dirty: Dirty)
    requires Shape(g) && HistoryFits(g, h) && |row| == g.cols
    ensures Shape(Swap(g, h))
    ensures WithActiveRow(Swap(g, h), row).(dirty := dirty) == Swap(WithActiveRow(g, row).(dirty := dirty), h)
    ensures WithActiveRow(g, row).history == g.history
  {
    hide ScreenShape;
  }

  lemma {:induction false} EraseLineIgnores(g: Grid, h: History, mode: u16)
    requires Shape(g) && HistoryFits(g, h)
    ensures Shape(Swap(g, h)) && EraseLine(Swap(g, h), mode) == Swap(EraseLine(g, mode), h)
    ensures EraseLine(g, mode).history == g.history
  {
    hide EraseCells, MarkRange, PenBlankRow, ScreenShape, WithActiveRow;
    PenRowIgnores(g, h);
    if mode == 0 {
      RowIgnores(g, h, EraseCells(ActiveRow(g), g.col, g.cols, PenBlank(g)), MarkRange(g.dirty, g.row, g.col, g.cols));
    } else if mode == 1 {
      RowIgnores(g, h, EraseCells(ActiveRow(g), 0, Min(g.col, g.cols - 1) + 1, PenBlank(g)),
        MarkRange(g.dirty, g.row, 0, SatAdd(g.col, 1)));
    } else if mode == 2 {
      assert |PenBlankRow(g)| == g.cols by { PenRowLength(g); }
      RowIgnores(g, h, PenBlankRow(g), MarkRow(g.dirty, g.row));
    }
  }

  lemma {:induction false} EraseCharsIgnores(g: Grid, h: History, n: u16)
    requires Shape(g) && HistoryFits(g, h)
    ensures Shape(Swap(g, h))
    ensures EraseChars(Swap(g, h), n) == Swap(EraseChars(g, n), h) && EraseChars(g, n).history == g.history
  {
    hide EraseCells, MarkRange, ScreenShape, WithActiveRow;
    var end := Min(g.col + Max(n, 1), g.cols);
    RowIgnores(g, h, EraseCells(ActiveRow(g), Min(g.col, end), end, PenBlank(g)),
        MarkRange(g.dirty, g.row, g.col, end));
  }

  lemma {:induction false} InRowIgnores(g: Grid, h: History, n: u16)
    requires Shape(g) && HistoryFits(g, h)
    ensures Shape(Swap(g, h))
    ensures InsertChars(Swap(g, h), n) == Swap(InsertChars(g, n), h) && InsertChars(g, n).history == g.history
    ensures DeleteChars(Swap(g, h), n) == Swap(DeleteChars(g, n), h) && DeleteChars(g, n).history == g.history
  {
    hide MarkRange, ScreenShape, WithActiveRow;
    RowIgnores(g, h, InsertCells(ActiveRow(g), g.col, Max(n, 1)), MarkRange(g.dirty, g.row, g.col, g.cols));
    RowIgnores(g, h, DeleteCells(ActiveRow(g), g.col, Max(n, 1)), MarkRange(g.dirty, g.row, g.col, g.cols));
  }

  lemma {:induction false} PenRowIgnores(g: Grid, h: History)
    ensures PenBlankRow(Swap(g, h)) == PenBlankRow(g)
  {
  }

  lemma {:induction false} ShiftIgnores(g: Grid, h: History, top: u16, bottom: u16, rows: u16)
    requires Shape(g) && HistoryFits(g, h) && top <= bottom < g.rows && rows <= bottom - top + 1
    ensures Shape(Swap(g, h))
    ensures ShiftActiveDown(Swap(g, h), top, bottom, rows) == Swap(ShiftActiveDown(g, top, bottom, rows), h)
    ensures ShiftActiveDown(g, top, bottom, rows).history == g.history
  {
    hide ShiftDown, ScreenShape;
  }

  lemma {:induction false} LinesIgnore(g: Grid, h: History, n: u16)
    requires Shape(g) && HistoryFits(g, h)
    ensures Shape(Swap(g, h))
    ensures InsertLinesAt(Swap(g, h), n) == Swap(InsertLinesAt(g, n), h) && InsertLinesAt(g, n).history == g.history
    ensures ScrollDownBy(Swap(g, h), n) == Swap(ScrollDownBy(g, n), h) && ScrollDownBy(g, n).history == g.history
  {
    hide ShiftActiveDown, ScreenShape;
    ShiftIgnores(g, h, g.scrollTop, g.scrollBottom, Min(Max(n, 1), g.scrollBottom - g.scrollTop + 1));
    if g.scrollTop <= g.row <= g.scrollBottom {
      ShiftIgnores(g, h, g.row, g.scrollBottom, Min(Max(n, 1), g.scrollBottom - g.row + 1));
    }
  }

  lemma {:induction false} DeleteLinesIgnores(g: Grid, h: History, n: u16)
    requires Shape(g) && HistoryFits(g, h)
    ensures Shape(Swap(g, h))
    ensures DeleteLinesAt(Swap(g, h), n) == Swap(DeleteLinesAt(g, n), h) && DeleteLinesAt(g, n).history == g.history
  {
    hide ShiftUp, ScreenShape;
  }

  lemma {:induction false} ReverseIgnores(g: Grid, h: History)
    requires Shape(g) && HistoryFits(g, h)
    ensures Shape(Swap(g, h)) && ReverseIndex(Swap(g, h)) == Swap(ReverseIndex(g), h)
        && ReverseIndex(g).history == g.history
  {
    hide ShiftActiveDown, ScreenShape;
    var g1 := ClearPendingWrap(g);
    ShiftIgnores(g1, h, g1.scrollTop, g1.scrollBottom, 1);
  }

  lemma {:induction false} MoveIgnores(g: Grid, h: History, m: Move, top: u16, bottom: u16)
    requires Shape(g) && HistoryFits(g, h)
    ensures Shape(Swap(g, h))
    ensures MoveCursor(Swap(g, h), m) == Swap(MoveCursor(g, m), h) && MoveCursor(g, m).history == g.history
    ensures SetRegion(Swap(g, h), top, bottom) == Swap(SetRegion(g, top, bottom), h)
    ensures SetRegion(g, top, bottom).history == g.history
  {
    hide RowAfter, ColAfter, ScreenShape;
  }

  lemma {:induction false} RestoreIgnores(g: Grid, h: History)
    requires Shape(g) && HistoryFits(g, h)
    ensures Shape(Swap(g, h)) && RestoreSavedCursor(Swap(g, h)) == Swap(RestoreSavedCursor(g), h)
    ensures RestoreSavedCursor(g).history == g.history
  {
    hide ScreenShape;
  }

  lemma {:induction false} ReportIgnores(g: Grid, h: History, n: u16, dec: bool)
    requires Shape(g) && HistoryFits(g, h)
    ensures Shape(Swap(g, h)) && StatusReport(Swap(g, h), n, dec) == Swap(StatusReport(g, n, dec), h)
    ensures StatusReport(g, n, dec).history == g.history
  {
    hide ScreenShape;
  }

  lemma {:induction false} SoftResetIgnores(g: Grid, h: History)
    requires Shape(g) && HistoryFits(g, h)
    ensures Shape(Swap(g, h)) && SoftReset(Swap(g, h)) == Swap(SoftReset(g), h) && SoftReset(g).history == g.history
  {
    hide ScreenShape;
  }

  lemma {:induction false} KittyIgnores(g: Grid, h: History, n: u16)
    ensures KittyPush(Swap(g, h), n) == Swap(KittyPush(g, n), h) && KittyPush(g, n).history == g.history
    ensures KittyPop(Swap(g, h), n) == Swap(KittyPop(g, n), h) && KittyPop(g, n).history == g.history
  {
  }

  /** The events that set one field or append one reply. */
  lemma {:induction false} RestIgnores(g: Grid, h: History, e: Event)
    requires Shape(g) && HistoryFits(g, h)
    requires e.Graphics? || e.Keypad? || e.Style? || e.Link? || e.Ignored?
    ensures Shape(Swap(g, h)) && Step(Swap(g, h), e) == Swap(Step(g, e), h) && Step(g, e).history == g.history
  {
    hide ScreenShape, Sgr.ApplySgr, Shape;
    assert Shape(Swap(g, h)) by { SwapShape(g, h); }
  }

  lemma {:induction false} AskIgnores(g: Grid, h: History, mode: u16, dec: bool)
    requires Shape(g) && HistoryFits(g, h)
    ensures Shape(Swap(g, h)) && Step(Swap(g, h), AskMode(mode, dec)) == Swap(Step(g, AskMode(mode, dec)), h)
    ensures Step(g, AskMode(mode, dec)).history == g.history
  {
    hide ScreenShape, ModeStatus, Shape;
    SwapShape(g, h);
  }

  lemma {:induction false} SwapShape(g: Grid, h: History)
    requires Shape(g) && HistoryFits(g, h)
    ensures Shape(Swap(g, h))
  {
    hide ScreenShape;
  }

  lemma {:induction false} ResizeIgnores(g: Grid, h: History, rows: u16, cols: u16)
    requires Shape(g) && HistoryFits(g, h) && cols <= MAX_COLS
    ensures Shape(Swap(g, h)) && Resize(Swap(g, h), rows, cols) == Swap(Resize(g, rows, cols), h)
    ensures Resize(g, rows, cols).history == g.history
  {
    hide ResizeScreen;
    ResizeScreenShape(g.primary, g.rows, g.cols, Max(rows, 1), Max(cols, 1));
    ResizeScreenShape(g.alternate, g.rows, g.cols, Max(rows, 1), Max(cols, 1));
    hide ScreenShape;
  }

  predicate EditsScreen(e: Event) {
    EditsRow(e) || e.InsertLines? || e.DeleteLines? || e.ScrollDown? || e.ReverseLine? || e.SetSize?
  }

  lemma {:induction false} RowEditIgnores(g: Grid, h: History, e: Event)
    requires Shape(g) && HistoryFits(g, h) && EditsRow(e)
    ensures Shape(Swap(g, h)) && Step(Swap(g, h), e) == Swap(Step(g, e), h) && Step(g, e).history == g.history
  {
    hide Step, EraseLine, EraseChars, InsertChars, DeleteChars, Shape;
    SwapShape(g, h);
    StepRowEdit(g, e);
    StepRowEdit(Swap(g, h), e);
    match e {
      case EraseInLine(mode) => EraseLineIgnores(g, h, mode);
      case EraseCharacters(n) => EraseCharsIgnores(g, h, n);
      case InsertCharacters(n) => InRowIgnores(g, h, n);
      case DeleteCharacters(n) => InRowIgnores(g, h, n);
    }
  }

  lemma {:induction false} EditIgnores(g: Grid, h: History, e: Event)
    requires Shape(g) && EventOk(e) && HistoryFits(g, h) && EditsScreen(e) && !EditsRow(e)
    ensures Shape(Swap(g, h)) && Step(Swap(g, h), e) == Swap(Step(g, e), h) && Step(g, e).history == g.history
  {
    hide Step, InsertLinesAt, DeleteLinesAt, ScrollDownBy, ReverseIndex, Resize, Shape;
    SwapShape(g, h);
    StepLines(g, e);
    StepLines(Swap(g, h), e);
    StepReset(g, e);
    StepReset(Swap(g, h), e);
    match e {
      case InsertLines(n) => LinesIgnore(g, h, n);
      case DeleteLines(n) => DeleteLinesIgnores(g, h, n);
      case ScrollDown(n) => LinesIgnore(g, h, n);
      case ReverseLine => ReverseIgnores(g, h);
      case SetSize(rows, cols) => ResizeIgnores(g, h, rows, cols);
    }
  }

  lemma {:induction false} SettingIgnores(g: Grid, h: History, e: Event)
    requires Shape(g) && EventOk(e) && HistoryFits(g, h) && HistoryFree(e) && !EditsScreen(e)
    ensures Shape(Swap(g, h)) && Step(Swap(g, h), e) == Swap(Step(g, e), h) && Step(g, e).history == g.history
  {
    hide Step, MoveCursor, SetRegion, RestoreSavedCursor, StatusReport, SoftReset, KittyPush, KittyPop, Shape;
    SwapShape(g, h);
    StepCursor(g, e);
    StepCursor(Swap(g, h), e);
    StepReset(g, e);
    StepReset(Swap(g, h), e);
    StepReply(g, e);
    StepReply(Swap(g, h), e);
    match e {
      case Cursor(m) => MoveIgnores(g, h, m, 0, 0);
      case Region(top, bottom) => MoveIgnores(g, h, Up(1), top, bottom);
      case Restore => RestoreIgnores(g, h);
      case Report(n, dec) => ReportIgnores(g, h, n, dec);
      case ResetSoft => SoftResetIgnores(g, h);
      case Save =>
      case KittyUp(n) => KittyIgnores(g, h, n);
      case KittyDown(n) => KittyIgnores(g, h, n);
      case AskMode(mode, dec) => AskIgnores(g, h, mode, dec);
      case _ => RestIgnores(g, h, e);
    }
  }

  lemma {:induction false} StepIgnores(g: Grid, h: History, e: Event)
    requires Shape(g) && EventOk(e) && HistoryFits(g, h) && HistoryFree(e)
    ensures Shape(Swap(g, h)) && Step(Swap(g, h), e) == Swap(Step(g, e), h) && Step(g, e).history == g.history
  {
    hide Step, Shape;
    if EditsRow(e) {
      RowEditIgnores(g, h, e);
    } else if EditsScreen(e) {
      EditIgnores(g, h, e);
    } else {
      SettingIgnores(g, h, e);
    }
  }

  lemma {:induction false} ModeIgnores(g: Grid, h: History, mode: u16, on: bool)
    requires Shape(g) && HistoryFits(g, h)
    ensures Shape(Swap(g, h)) && SetDecMode(Swap(g, h), mode, on) == Swap(SetDecMode(g, mode, on), h)
    ensures SetDecMode(g, mode, on).history == g.history
  {
    hide ScreenShape, FlagsAfter, MouseAfter, EncodingAfter, Announced;
  }

  lemma {:induction false} ModesIgnore(g: Grid, h: History, modes: seq<u16>, on: bool)
    requires Shape(g) && HistoryFits(g, h)
    ensures Shape(Swap(g, h)) && SetDecModes(Swap(g, h), modes, on) == Swap(SetDecModes(g, modes, on), h)
    ensures SetDecModes(g, modes, on).history == g.history
    decreases |modes|
  {
    hide SetDecMode, ScreenShape;
    if modes != [] {
      ModeIgnores(g, h, modes[0], on);
      ModesIgnore(SetDecMode(g, modes[0], on), h, modes[1..], on);
    }
  }

  lemma {:induction false} AgreeControls(a: Grid, b: Grid, byte: u8)
    requires Agree(a, b)
    ensures Agree(Execute(a, byte), Execute(b, byte))
  {
    hide ScreenShape, Newline;
    if 0x0a <= byte <= 0x0c {
      AgreeClear(a, b);
      AgreeNewline(ClearPendingWrap(a), ClearPendingWrap(b), Hard);
    }
  }

  lemma {:induction false} AgreeClear(a: Grid, b: Grid)
    requires Agree(a, b)
    ensures Agree(ClearPendingWrap(a), ClearPendingWrap(b))
  {
    hide ScreenShape;
  }

  lemma {:induction false} AgreeReset(a: Grid, b: Grid)
    requires Agree(a, b)
    ensures Agree(FullReset(a), FullReset(b))
  {
    hide ScreenShape;
  }

  lemma {:induction false} AgreeSaving(a: Grid, b: Grid, e: Event)
    requires Agree(a, b) && (e.Print? || e.Control? || e.EraseInDisplay? || e.ScrollUpBy?)
    ensures Agree(Step(a, e), Step(b, e))
  {
    hide Step, Agree, Shape, WriteChar, Execute, EraseDisplay, ScrollUp;
    AgreeShapes(a, b);
    StepText(a, e);
    StepText(b, e);
    StepLines(a, e);
    StepLines(b, e);
    match e {
      case Print(ch) => AgreeWrite(a, b, ch);
      case Control(byte) => AgreeControls(a, b, byte);
      case EraseInDisplay(mode) => AgreeEraseDisplay(a, b, mode);
      case ScrollUpBy(n) => AgreeScroll(a, b, Max(n, 1), Hard);
    }
  }

  lemma {:induction false} AgreeShapes(a: Grid, b: Grid)
    requires Agree(a, b)
    ensures Shape(a) && Shape(b)
  {
  }

  /** One event keeps two such grids in agreement. */
  lemma {:induction false} StepAgrees(a: Grid, b: Grid, e: Event)
    requires EventOk(e) && Agree(a, b)
    ensures Agree(Step(a, e), Step(b, e))
  {
    hide Step, ScreenShape, SetDecModes, FullReset;
    StepText(a, e);
    StepText(b, e);
    StepReset(a, e);
    StepReset(b, e);
    match e {
      case Print(_) => AgreeSaving(a, b, e);
      case Control(_) => AgreeSaving(a, b, e);
      case EraseInDisplay(_) => AgreeSaving(a, b, e);
      case ScrollUpBy(_) => AgreeSaving(a, b, e);
      case PrivateModes(modes, on) => ModesIgnore(a, b.history, modes, on);
      case ResetFull => AgreeReset(a, b);
      case _ => AgreeFree(a, b, e);
    }
  }

  lemma {:induction false} AgreeFree(a: Grid, b: Grid, e: Event)
    requires EventOk(e) && Agree(a, b) && HistoryFree(e)
    ensures Agree(Step(a, e), Step(b, e))
  {
    hide Step, ScreenShape;
    StepIgnores(a, b.history, e);
  }

  /**
    * Non-interference: grids that differ only in their erase policy, fed any same events, keep equal screens, cursor,
    * modes, replies and damage, and the discarding one never holds more scrollback rows.
    */
  lemma {:induction false} PolicyNonInterference(a: Grid, b: Grid, es: seq<Event>)
    requires EventsOk(es) && Agree(a, b)
    ensures Agree(Run(a, es), Run(b, es))
    decreases |es|
  {
    hide Step, ScreenShape;
    if es != [] {
      StepAgrees(a, b, es[0]);
      PolicyNonInterference(Step(a, es[0]), Step(b, es[0]), es[1..]);
    }
  }

  /** Two grids created alike and told to treat full-screen erases differently. */
  lemma {:induction false} PolicyFromFresh(p: Profile, rows: u16, cols: u16, limit: nat, es: seq<Event>)
    requires rows >= 1 && 1 <= cols <= MAX_COLS && EventsOk(es)
    ensures var saving := Fresh(p, rows, cols, limit);
            var discarding := saving.(history := saving.history.(policy := Discard));
            var a, b := Run(discarding, es), Run(saving, es);
            && a == b.(history := a.history)
            && |a.history.scrollback.cells| <= |b.history.scrollback.cells|
  {
    hide Run, ScreenShape;
    var saving := Fresh(p, rows, cols, limit);
    var discarding := saving.(history := saving.history.(policy := Discard));
    PolicyNonInterference(discarding, saving, es);
  }
}
