/**
  * The scroll operations recorded for consumers (src/grid.rs, `ScrollOp`): which event records what, that replaying
  * them on the old rows gives the new ones, and when counting them counts the rows in scrollback.
  */
module ScrollOps {
  import opened Basics
  import opened Cells
  import opened Rows
  import opened Damage
  import opened GridModel
  import opened Invariant
  import opened Erasing
  import opened Scrolling
  import opened Editing
  import opened Clearing
  import opened Provenance
  import opened AltScreen
  import opened Margins
  import opened HistoryRows
  import opened SoftRows

  // ---- what is recorded ----

  function Lines(n: u16, top: u16, bottom: u16): u16
    requires top <= bottom
  {
    Min(Max(n, 1), bottom - top + 1)
  }

  /** A printable or a control that goes down one row. */
  predicate GoesDown(g: Grid, e: Event)
    requires Shape(g)
  {
    match e
    case Print(ch) => TakesWrap(g, ch)
    case Control(byte) => 0x0a <= byte <= 0x0c
    case _ => false
  }

  /** The operations an event records: at most one, with the region and the clamped count. */
  function RecordedBy(g: Grid, e: Event): seq<ScrollOp>
    requires Shape(g)
  {
    var top, bottom := g.scrollTop, g.scrollBottom;
    if GoesDown(g, e) then (if g.row == bottom then [ScrolledUp(top, bottom, 1)] else [])
    else if e.ScrollUpBy? then [ScrolledUp(top, bottom, Lines(e.n, top, bottom))]
    else if e.ScrollDown? then [ScrolledDown(top, bottom, Lines(e.n, top, bottom))]
    else if e.ReverseLine? then (if g.row == top then [ScrolledDown(top, bottom, 1)] else [])
    else if e.InsertLines? && Between(g, g.row) then [ScrolledDown(g.row, bottom, Lines(e.n, g.row, bottom))]
    else if e.DeleteLines? && Between(g, g.row) then [ScrolledUp(g.row, bottom, Lines(e.n, g.row, bottom))]
    else []
  }

  lemma {:induction false} NewlineRecords(g: Grid, wrap: RowWrap)
    requires Shape(g)
    ensures Newline(g, wrap).scrollOps
         == g.scrollOps + (if g.row == g.scrollBottom then [ScrolledUp(g.scrollTop, g.scrollBottom, 1)] else [])
  {
    hide EvictRows, MarkRows, ScreenShape;
  }

  lemma {:induction false} PutRecordsNothing(g: Grid, ch: char, width: nat)
    requires Shape(g) && 1 <= width <= 2
    ensures PutChar(g, ch, width).scrollOps == g.scrollOps
  {
    hide PutGlyph, PutStart, PutEnd, MarkRange, ScreenShape;
  }

  lemma {:induction false} JoinRecordsNothing(g: Grid, ch: char, width: nat)
    requires Shape(g) && Append(g, ch, width).Some?
    ensures Append(g, ch, width).value.scrollOps == g.scrollOps
  {
    hide JoinCluster, MarkRange, CursorAfterJoin, ScreenShape;
  }

  lemma {:induction false} PrintRecords(g: Grid, ch: char)
    requires WF(g)
    ensures Step(g, Print(ch)).scrollOps == g.scrollOps + RecordedBy(g, Print(ch))
  {
    hide Step, Append, PutChar, Newline, ScreenShape, ScreenOk, Absorbed;
    StepText(g, Print(ch));
    AbsorbedIff(g, ch);
    var g0, width := Touch(g), g.profile.charWidth(ch);
    if Append(g0, ch, width).Some? {
      JoinRecordsNothing(g0, ch, width);
    } else {
      var g1 := g0.(pendingWrap := false, col := 0);
      NewlineRecords(g1, Soft);
      PutRecordsNothing(Newline(g1, Soft), ch, width);
      PutRecordsNothing(g0.(pendingWrap := false, col := Min(g0.col, g0.cols - 1)), ch, width);
      PutRecordsNothing(g0, ch, width);
    }
  }

  lemma {:induction false} ControlRecords(g: Grid, byte: u8)
    requires WF(g)
    ensures Step(g, Control(byte)).scrollOps == g.scrollOps + RecordedBy(g, Control(byte))
  {
    hide Step, Newline, ScreenShape, ScreenOk;
    StepText(g, Control(byte));
    NewlineRecords(ClearPendingWrap(g), Hard);
  }

  lemma {:induction false} ScrollRecords(g: Grid, count: u16)
    requires Shape(g) && count >= 1
    ensures ScrollUp(g, count, Hard).scrollOps
         == g.scrollOps + [ScrolledUp(g.scrollTop, g.scrollBottom, Min(count, g.scrollBottom - g.scrollTop + 1))]
  {
    hide EvictRows, MarkRows, ScreenShape;
  }

  lemma {:induction false} ShiftRecords(g: Grid, top: u16, bottom: u16, rows: u16)
    requires Shape(g) && top <= bottom < g.rows && rows <= bottom - top + 1
    ensures ShiftActiveDown(g, top, bottom, rows).scrollOps == g.scrollOps + [ScrolledDown(top, bottom, rows)]
  {
    hide ShiftDown, ScreenShape;
  }

  lemma {:induction false} DeleteLinesRecords(g: Grid, n: u16)
    requires Shape(g)
    ensures DeleteLinesAt(g, n).scrollOps == g.scrollOps + RecordedBy(g, DeleteLines(n))
  {
    hide ShiftUp, ScreenShape;
  }

  lemma {:induction false} LinesRecord(g: Grid, e: Event)
    requires WF(g) && MovesRows(e)
    ensures Step(g, e).scrollOps == g.scrollOps + RecordedBy(g, e)
  {
    hide Step, ScrollUp, ShiftActiveDown, DeleteLinesAt, ScreenShape, ScreenOk;
    StepLines(g, e);
    if e.ScrollUpBy? {
      ScrollRecords(g, Max(e.n, 1));
    } else if e.ScrollDown? {
      ShiftRecords(g, g.scrollTop, g.scrollBottom, Lines(e.n, g.scrollTop, g.scrollBottom));
    } else if e.ReverseLine? {
      if g.row == g.scrollTop { ShiftRecords(ClearPendingWrap(g), g.scrollTop, g.scrollBottom, 1); }
    } else if e.DeleteLines? {
      DeleteLinesRecords(g, e.n);
    } else if Between(g, g.row) {
      ShiftRecords(g, g.row, g.scrollBottom, Lines(e.n, g.row, g.scrollBottom));
    }
  }

  lemma {:induction false} RowEditRecords(g: Grid, e: Event)
    requires WF(g) && EditsRow(e)
    ensures Step(g, e).scrollOps == g.scrollOps
  {
    hide Step, EraseLine, InsertedAt, DeletedAt, ErasedAt, ScreenOk, ScreenShape;
    StepRowEdit(g, e);
    match e {
      case EraseInLine(mode) => EraseLineRecords(g, mode);
      case EraseCharacters(n) => EraseExact(g, n);
      case InsertCharacters(n) => InsertExact(g, n);
      case DeleteCharacters(n) => DeleteExact(g, n);
    }
  }

  lemma {:induction false} EraseLineRecords(g: Grid, mode: u16)
    requires Shape(g)
    ensures EraseLine(g, mode).scrollOps == g.scrollOps
  {
    hide EraseCells, MarkRange, ScreenShape;
  }

  lemma {:induction false} ErasePartRecords(g: Grid, mode: u16)
    requires Shape(g) && mode <= 1
    ensures EraseDisplay(g, mode).scrollOps == g.scrollOps
  {
    hide EraseCells, Preserve, WithActiveRow, BlankRows, ScreenShape;
    if mode == 0 {
      PreserveFrame(g);
      EraseFromCell(if g.row == 0 && g.col == 0 then Preserve(g) else g, 0, 0);
    } else {
      BlankRowsCell(g, 0, g.row, 0);
      var g1 := BlankRows(g, 0, g.row);
      WithActiveRowFrame(g1, EraseCells(ActiveRow(g1), 0, Min(g1.col, g1.cols - 1) + 1, PenBlank(g1)));
    }
  }

  lemma {:induction false} EraseRecords(g: Grid, mode: u16)
    requires Shape(g)
    ensures EraseDisplay(g, mode).scrollOps == g.scrollOps
  {
    hide EraseCells, Preserve, WithActiveRow, BlankRows, ScreenShape;
    if mode <= 1 {
      ErasePartRecords(g, mode);
    } else {
      PreserveFrame(g);
      BlankRowsCell(Preserve(g), 0, g.rows, 0);
      BlankRowsCell(g.(history := Forget(g.history)), 0, g.rows, 0);
    }
  }

  lemma {:induction false} ModesRecord(g: Grid, modes: seq<u16>, on: bool)
    requires Shape(g)
    ensures SetDecModes(g, modes, on).scrollOps == g.scrollOps
    decreases |modes|
  {
    hide ScreenShape, FlagsAfter, MouseAfter, EncodingAfter, Announced;
    if modes != [] { ModesRecord(SetDecMode(g, modes[0], on), modes[1..], on); }
  }

  lemma {:induction false} OtherRecords(g: Grid, e: Event)
    requires WF(g) && EventOk(e) && !EditsRow(e) && !MovesRows(e) && !e.Print? && !e.Control?
    ensures Step(g, e).scrollOps == g.scrollOps
  {
    hide Step, SetDecModes, EraseDisplay, ResizeScreen, ScreenOk, ScreenShape, RowAfter, ColAfter;
    StepText(g, e);
    StepReset(g, e);
    StepCursor(g, e);
    if e.PrivateModes? {
      ModesRecord(g, e.modes, e.on);
    } else if e.EraseInDisplay? {
      EraseRecords(g, e.mode);
    } else if PlainEvent(e) {
      PlainFrame(g, e);
    }
  }

  lemma {:induction false} StepRecords(g: Grid, e: Event)
    requires WF(g) && EventOk(e)
    ensures Step(g, e).scrollOps == g.scrollOps + RecordedBy(g, e)
  {
    hide Step, WF, TakesWrap;
    WFShape(g);
    if e.Print? {
      PrintRecords(g, e.ch);
    } else if e.Control? {
      ControlRecords(g, e.byte);
    } else if MovesRows(e) {
      LinesRecord(g, e);
    } else if EditsRow(e) {
      RowEditRecords(g, e);
    } else {
      OtherRecords(g, e);
    }
  }

  // ---- replaying the record ----

  /** Row `r` after the rows `top..=bottom` shifted. */
  function ShiftedRow(cells: seq<Row>, cols: u16, op: ScrollOp, r: nat): Row
    requires r < |cells|
  {
    if r < op.top || r > op.bottom then cells[r]
    else
      var from := if op.ScrolledUp? then r + op.rows else r - op.rows;
      if op.top <= from <= op.bottom && from < |cells| then cells[from] else BlankRow(cols)
  }

  function Shifted(cells: seq<Row>, cols: u16, op: ScrollOp): seq<Row> {
    seq(|cells|, r requires 0 <= r < |cells| => ShiftedRow(cells, cols, op, r))
  }

  function Replayed(cells: seq<Row>, cols: u16, ops: seq<ScrollOp>): seq<Row>
    decreases |ops|
  {
    if ops == [] then cells else Replayed(Shifted(cells, cols, ops[0]), cols, ops[1..])
  }

  lemma {:induction false} ReplayedSplit(cells: seq<Row>, cols: u16, a: seq<ScrollOp>, b: seq<ScrollOp>)
    ensures Replayed(cells, cols, a + b) == Replayed(Replayed(cells, cols, a), cols, b)
    decreases |a|
  {
    hide Shifted;
    if a == [] {
      assert a + b == b;
    } else {
      assert (a + b)[1..] == a[1..] + b;
      ReplayedSplit(Shifted(cells, cols, a[0]), cols, a[1..], b);
    }
  }

  lemma {:induction false} ReplayedOne(cells: seq<Row>, cols: u16, op: ScrollOp)
    ensures Replayed(cells, cols, [op]) == Shifted(cells, cols, op)
  {
    assert [op][1..] == [];
    assert Replayed(Shifted(cells, cols, op), cols, []) == Shifted(cells, cols, op);
  }

  lemma {:induction false} UpIsShifted(s: Screen, cols: u16, top: u16, bottom: u16, n: u16, wrap: RowWrap)
    requires RegionOf(s, top, bottom) && 1 <= n <= bottom + 1 - top
    ensures ShiftUp(s, cols, top, bottom, n, wrap).cells == Shifted(s.cells, cols, ScrolledUp(top, bottom, n))
  {
    hide ShiftUp, BlankRow;
    ShiftUpRow(s, cols, top, bottom, n, wrap, 0);
    var t, u := ShiftUp(s, cols, top, bottom, n, wrap), Shifted(s.cells, cols, ScrolledUp(top, bottom, n));
    forall r | 0 <= r < |s.cells| ensures t.cells[r] == u[r] { ShiftUpRow(s, cols, top, bottom, n, wrap, r); }
  }

  lemma {:induction false} DownIsShifted(s: Screen, cols: u16, top: u16, bottom: u16, n: u16)
    requires RegionOf(s, top, bottom) && 1 <= n <= bottom + 1 - top
    ensures ShiftDown(s, cols, top, bottom, n).cells == Shifted(s.cells, cols, ScrolledDown(top, bottom, n))
  {
    hide ShiftDown, BlankRow;
    ShiftDownRow(s, cols, top, bottom, n, 0);
    var t, u := ShiftDown(s, cols, top, bottom, n), Shifted(s.cells, cols, ScrolledDown(top, bottom, n));
    forall r | 0 <= r < |s.cells| ensures t.cells[r] == u[r] { ShiftDownRow(s, cols, top, bottom, n, r); }
  }

  lemma {:induction false} LineFeedReplays(g: Grid, byte: u8)
    requires WF(g) && g.rows >= 2
    ensures var h := Step(g, Control(byte));
            Active(h).cells == Replayed(Active(g).cells, g.cols, RecordedBy(g, Control(byte)))
  {
    hide Step, BlankRow, ScreenOk;
    var h := Step(g, Control(byte));
    ControlGoesDown(g, byte);
    if 0x0a <= byte <= 0x0c && g.row == g.scrollBottom {
      var op := ScrolledUp(g.scrollTop, g.scrollBottom, 1);
      ReplayedOne(Active(g).cells, g.cols, op);
      assert forall r | 0 <= r < g.rows :: CellsBelow(g, r) == ShiftedRow(Active(g).cells, g.cols, op, r);
      assert Active(h).cells == Shifted(Active(g).cells, g.cols, op);
    } else {
      StandsStill(g, h, byte);
    }
  }

  lemma {:induction false} StandsStill(g: Grid, h: Grid, byte: u8)
    requires WF(g) && h == Step(g, Control(byte)) && !(0x0a <= byte <= 0x0c && g.row == g.scrollBottom)
    ensures Active(h).cells == Active(g).cells
  {
    hide Step, BlankRow, ScreenOk;
    ControlGoesDown(g, byte);
    if 0x0a <= byte <= 0x0c {
      assert forall r | 0 <= r < g.rows :: CellsBelow(g, r) == Active(g).cells[r];
    } else {
      ControlKeepsModes(g, byte);
    }
  }

  lemma {:induction false} ControlKeepsModes(g: Grid, byte: u8)
    requires Shape(g)
    ensures Step(g, Control(byte)).modes == g.modes
  {
    hide Step, Newline, ScreenShape;
    StepText(g, Control(byte));
    NewlineFrame(ClearPendingWrap(g), Hard);
  }

  lemma {:induction false} LinesReplay(g: Grid, e: Event)
    requires WF(g) && g.rows >= 2 && MovesRows(e)
    ensures Active(Step(g, e)).cells == Replayed(Active(g).cells, g.cols, RecordedBy(g, e))
  {
    hide Step, ShiftUp, ShiftDown, Shifted, MarkRows, Replayed, Remember, ScreenOk, ScreenShape;
    StepLines(g, e);
    ActiveRegion(g);
    assert Replayed(Active(g).cells, g.cols, []) == Active(g).cells by { ReplayedNone(Active(g).cells, g.cols); }
    if RecordedBy(g, e) != [] {
      var op := RecordedBy(g, e)[0];
      ReplayedOne(Active(g).cells, g.cols, op);
      if op.ScrolledUp? {
        UpIsShifted(Active(g), g.cols, op.top, op.bottom, op.rows, Hard);
      } else {
        DownIsShifted(Active(g), g.cols, op.top, op.bottom, op.rows);
      }
    }
  }

  lemma {:induction false} ReplayedNone(cells: seq<Row>, cols: u16)
    ensures Replayed(cells, cols, []) == cells
  {
  }

  lemma {:induction false} MoveKeepsCells(g: Grid, m: Move)
    requires Shape(g)
    ensures Active(MoveCursor(g, m)).cells == Active(g).cells
    ensures Active(RestoreSavedCursor(g)).cells == Active(g).cells && Active(SaveCursor(g)).cells == Active(g).cells
  {
    hide RowAfter, ColAfter, ScreenShape;
  }

  lemma {:induction false} PlainReplays(g: Grid, e: Event)
    requires WF(g) && (PlainEvent(e) || e.Cursor? || e.Save? || e.Restore?)
    ensures Active(Step(g, e)).cells == Replayed(Active(g).cells, g.cols, RecordedBy(g, e))
  {
    hide Step, MoveCursor, SaveCursor, RestoreSavedCursor, ScreenOk, ScreenShape, Replayed;
    ReplayedNone(Active(g).cells, g.cols);
    if PlainEvent(e) {
      PlainFrame(g, e);
    } else {
      StepCursor(g, e);
      MoveKeepsCells(g, if e.Cursor? then e.move else Up(1));
    }
  }

  lemma {:induction false} StepReplays(g: Grid, e: Event)
    requires WF(g) && g.rows >= 2 && MovesOnly(e)
    ensures Active(Step(g, e)).cells == Replayed(Active(g).cells, g.cols, RecordedBy(g, e))
  {
    hide Step, WF, Replayed, RecordedBy;
    WFShape(g);
    if e.Control? {
      LineFeedReplays(g, e.byte);
    } else if MovesRows(e) {
      LinesReplay(g, e);
    } else {
      PlainReplays(g, e);
    }
  }

  /**
    * A consumer that patches rows needs only the record: on a grid of two or more rows, over any run of line feeds,
    * scrolls, line edits and cursor motion, replaying the operations recorded during the run on the rows shown before
    * it gives the rows shown after it.
    */
  lemma {:induction false} RecordReplaysRows(g: Grid, es: seq<Event>)
    requires WF(g) && g.rows >= 2 && EventsOk(es) && AllMoveOnly(es)
    ensures var h := Run(g, es);
            && g.scrollOps <= h.scrollOps
            && Active(h).cells == Replayed(Active(g).cells, g.cols, h.scrollOps[|g.scrollOps|..])
    decreases |es|
  {
    hide Step, WF, Replayed, RecordedBy, MovesOnly;
    WFShape(g);
    if es == [] {
      assert g.scrollOps[|g.scrollOps|..] == [];
      ReplayedNone(Active(g).cells, g.cols);
    } else {
      var g1 := Step(g, es[0]);
      StepKeeps(g, es[0]);
      assert AllMoveOnly(es[1..]);
      StepConfined(g, es[0]);
      StepReplays(g, es[0]);
      StepRecords(g, es[0]);
      RecordReplaysRows(g1, es[1..]);
      var h := Run(g1, es[1..]);
      assert h.scrollOps[|g.scrollOps|..] == RecordedBy(g, es[0]) + h.scrollOps[|g1.scrollOps|..];
      ReplayedSplit(Active(g).cells, g.cols, RecordedBy(g, es[0]), h.scrollOps[|g1.scrollOps|..]);
    }
  }

  /** With a single row nothing moves, so the record is true to it exactly when the row is blank already. */
  lemma {:induction false} OneRowReplaysIff(g: Grid, n: u16)
    requires WF(g) && g.rows == 1
    ensures var h := Step(g, ScrollUpBy(n));
            && Active(h).cells == Active(g).cells
            && (Active(h).cells == Replayed(Active(g).cells, g.cols, RecordedBy(g, ScrollUpBy(n)))
                <==> Active(g).cells[0] == BlankRow(g.cols))
  {
    hide Step, BlankRow, MarkRows, ScreenOk;
    StepLines(g, ScrollUpBy(n));
    ReplayedOne(Active(g).cells, g.cols, ScrolledUp(0, 0, 1));
    assert Shifted(Active(g).cells, g.cols, ScrolledUp(0, 0, 1)) == [BlankRow(g.cols)];
  }

  // ---- counting the record ----

  /** Rows an operation sends off the top of the screen. */
  function OffTop(op: ScrollOp): nat {
    if op.ScrolledUp? && op.top == 0 then op.rows else 0
  }

  function OffTopAll(ops: seq<ScrollOp>): nat
    decreases |ops|
  {
    if ops == [] then 0 else OffTop(ops[0]) + OffTopAll(ops[1..])
  }

  /** The operation sends nothing to scrollback: DL at the top row, the alternate screen, one row, or no limit. */
  predicate Astray(g: Grid, e: Event)
    requires Shape(g)
  {
    && OffTopAll(RecordedBy(g, e)) > 0
    && (e.DeleteLines? || g.modes.alt || g.rows == 1 || g.history.limit == 0)
  }

  predicate NoneAstray(g: Grid, es: seq<Event>)
    requires Shape(g) && EventsOk(es)
    decreases |es|
  {
    es == [] || (!Astray(g, es[0]) && NoneAstray(Step(g, es[0]), es[1..]))
  }

  predicate KeepsScrollback(es: seq<Event>) {
    forall i | 0 <= i < |es| :: es[i] != EraseInDisplay(3)
  }

  function Held(g: Grid): nat {
    |g.history.scrollback.cells|
  }

  lemma {:induction false} OffTopOne(op: ScrollOp)
    ensures OffTopAll([op]) == OffTop(op)
  {
    assert [op][1..] == [];
  }

  lemma {:induction false} OffTopSplit(a: seq<ScrollOp>, b: seq<ScrollOp>)
    ensures OffTopAll(a + b) == OffTopAll(a) + OffTopAll(b)
    decreases |a|
  {
    if a == [] {
      assert a + b == b;
    } else {
      assert (a + b)[1..] == a[1..] + b;
      OffTopSplit(a[1..], b);
    }
  }

  /** Rows that enter scrollback under the discarding policy. */
  function Entering(g: Grid, e: Event): nat
    requires Shape(g)
  {
    if Astray(g, e) then 0 else OffTopAll(RecordedBy(g, e))
  }

  lemma {:induction false} BelowHolds(g: Grid)
    requires WF(g)
    ensures |ScrollbackBelow(g).cells|
         == if AtBottom(g) && !g.modes.alt && g.scrollTop == 0 && g.history.limit > 0
             then Min(g.history.limit, Held(g) + 1)
            else Held(g)
  {
    hide ScreenOk;
  }

  lemma {:induction false} DownEnters(g: Grid, e: Event)
    requires WF(g) && GoesDown(g, e)
    ensures Entering(g, e)
         == if AtBottom(g) && !g.modes.alt && g.scrollTop == 0 && g.history.limit > 0 then 1 else 0
  {
    hide ScreenOk, ScreenShape, TakesWrap;
    OffTopOne(ScrolledUp(g.scrollTop, g.scrollBottom, 1));
  }

  lemma {:induction false} DownHolds(g: Grid, h: Grid, e: Event, wrap: RowWrap, edited: int)
    requires WF(g) && Shape(h) && GoesDown(g, e) && WentDown(g, h, wrap, edited)
    ensures Held(h) == Min(g.history.limit, Held(g) + Entering(g, e))
  {
    hide CellsBelow, FlagBelow, ScrollbackBelow, Entering, GoesDown, ScreenOk, ScreenShape;
    BelowHolds(g);
    DownEnters(g, e);
  }

  lemma {:induction false} ScrollHolds(g: Grid, n: u16)
    requires WF(g)
    ensures Held(Step(g, ScrollUpBy(n))) == Min(g.history.limit, Held(g) + Entering(g, ScrollUpBy(n)))
  {
    hide Step, LoopUp, ScreenOk, ScreenShape;
    OffTopOne(RecordedBy(g, ScrollUpBy(n))[0]);
    if TallRegion(g) {
      ScrollUpExact(g, n);
      RowsOf(g, g.scrollBottom);
    } else {
      OneRowHolds(g, n);
    }
  }

  lemma {:induction false} OneRowHolds(g: Grid, n: u16)
    requires Shape(g) && g.scrollTop == g.scrollBottom
    ensures Step(g, ScrollUpBy(n)).history.scrollback == g.history.scrollback
  {
    hide Step, EvictRows, MarkRows, ScreenShape;
    StepLines(g, ScrollUpBy(n));
  }

  lemma {:induction false} StillHolds(g: Grid, e: Event)
    requires WF(g) && EventOk(e) && g.history.policy.Discard? && e != EraseInDisplay(3)
    requires !GoesDown(g, e) && !e.ScrollUpBy?
    ensures Step(g, e).history.scrollback == g.history.scrollback
  {
    hide Step, ScreenOk, ScreenShape, TakesWrap, SetDecModes, Landed, Extended, OtherRowsStay;
    if e.Print? {
      PrintStays(g, e.ch);
      assert Step(g, e).history == Touch(g).history by { OtherRowsHistory(Touch(g), Step(g, e)); }
    } else if e.Control? {
      ControlGoesDown(g, e.byte);
    } else if e.EraseInDisplay? {
      ClearSaves(g, e.mode);
    } else if e.PrivateModes? {
      StepText(g, e);
      ModesKeepRows(g, e.modes, e.on);
    } else if e.ResetFull? {
      StepReset(g, e);
    } else {
      FreeKeepsHistory(g, e);
    }
  }

  lemma {:induction false} OtherRowsHistory(g: Grid, h: Grid)
    requires OtherRowsStay(g, h)
    ensures h.history == g.history
  {
  }

  lemma {:induction false} StepHolds(g: Grid, e: Event)
    requires WF(g) && EventOk(e) && g.history.policy.Discard? && e != EraseInDisplay(3)
    ensures Held(Step(g, e)) == Min(g.history.limit, Held(g) + Entering(g, e))
  {
    hide Step, TakesWrap, WentDown, ScreenOk, ScreenShape, Landed;
    if GoesDown(g, e) {
      if e.Print? {
        WrapGoesDown(g, e.ch);
        DownHolds(g, Step(g, e), e, Soft, RowBelow(g));
      } else {
        ControlGoesDown(g, e.byte);
        DownHolds(g, Step(g, e), e, Hard, -1);
      }
    } else if e.ScrollUpBy? {
      ScrollHolds(g, e.n);
    } else {
      StillHolds(g, e);
      if e.DeleteLines? && Between(g, g.row) { OffTopOne(RecordedBy(g, e)[0]); }
      if e.ScrollDown? || e.ReverseLine? || e.InsertLines? { DownCountsNothing(g, e); }
    }
  }

  lemma {:induction false} DownCountsNothing(g: Grid, e: Event)
    requires Shape(g) && (e.ScrollDown? || e.ReverseLine? || e.InsertLines?)
    ensures OffTopAll(RecordedBy(g, e)) == 0
  {
    hide ScreenShape;
    if RecordedBy(g, e) != [] { OffTopOne(RecordedBy(g, e)[0]); }
  }

  /**
    * Counting the record counts the scrollback: under the discarding policy, over any run without ED 3 that stays below
    * the limit, the scrollback grows by at most the rows the recorded operations send off the top of the screen, and by
    * exactly that many if and only if none of them was a DL at the top row, on the alternate screen or on a single row.
    */
  lemma {:induction false} RecordCountsScrollbackIff(g: Grid, es: seq<Event>)
    requires WF(g) && EventsOk(es) && g.history.policy.Discard? && KeepsScrollback(es)
    requires Held(g) + OffTopAll(Run(g, es).scrollOps) - OffTopAll(g.scrollOps) <= g.history.limit
    ensures var h := Run(g, es);
            var counted := OffTopAll(h.scrollOps) - OffTopAll(g.scrollOps);
            && Held(g) <= Held(h) <= Held(g) + counted
            && (Held(h) == Held(g) + counted <==> NoneAstray(g, es))
    decreases |es|
  {
    hide Step, WF, RecordedBy, Astray;
    WFShape(g);
    if es != [] {
      var g1 := Step(g, es[0]);
      StepKeeps(g, es[0]);
      StepHolds(g, es[0]);
      StepRecords(g, es[0]);
      OffTopSplit(g.scrollOps, RecordedBy(g, es[0]));
      RunCounts(g1, es[1..]);
      AstrayCounts(g, es[0]);
      RecordCountsScrollbackIff(g1, es[1..]);
    }
  }

  lemma {:induction false} AstrayCounts(g: Grid, e: Event)
    requires Shape(g)
    ensures Entering(g, e) <= OffTopAll(RecordedBy(g, e))
    ensures Entering(g, e) == OffTopAll(RecordedBy(g, e)) <==> !Astray(g, e)
  {
    hide RecordedBy, Shape;
  }

  lemma {:induction false} RunCounts(g: Grid, es: seq<Event>)
    requires WF(g) && EventsOk(es)
    ensures OffTopAll(g.scrollOps) <= OffTopAll(Run(g, es).scrollOps)
    decreases |es|
  {
    hide Step, WF, RecordedBy;
    WFShape(g);
    if es != [] {
      StepKeeps(g, es[0]);
      StepRecords(g, es[0]);
      OffTopSplit(g.scrollOps, RecordedBy(g, es[0]));
      RunCounts(Step(g, es[0]), es[1..]);
    }
  }

  /** It does happen: on a fresh discarding grid a DL at home records a row sent off the top, and none arrives. */
  lemma {:induction false} DeleteLineGoesAstray(p: Profile, rows: u16, cols: u16, limit: nat)
    requires rows >= 2 && 1 <= cols <= MAX_COLS && limit >= 1
    ensures var f := Fresh(p, rows, cols, limit);
            var g := f.(history := f.history.(policy := Discard));
            var h := Step(g, DeleteLines(1));
            WF(g) && OffTopAll(h.scrollOps) == OffTopAll(g.scrollOps) + 1 && Held(h) == Held(g) == 0
  {
    hide Step, ScreenOk, ScreenShape, BlankScreen;
    var f := Fresh(p, rows, cols, limit);
    FreshIsWF(p, rows, cols, limit);
    var g := f.(history := f.history.(policy := Discard));
    StepRecords(g, DeleteLines(1));
    StillHolds(g, DeleteLines(1));
    OffTopOne(ScrolledUp(0, rows - 1, 1));
    assert [] + RecordedBy(g, DeleteLines(1)) == [ScrolledUp(0, rows - 1, 1)];
  }
}
