/** The strokes both row painters are made of, and what they do to the replay grid. */
module Painting {
  import opened Basics
  import opened Cells
  import opened Rows
  import opened GridModel
  import opened Invariant
  import opened Serialize
  import opened Replay
  import opened Clusters

  /** The replay grid matches the painter's bookkeeping. */
  ghost predicate InStep(r0: Grid, r: Grid, st: Painter) {
    && Shape(r0) && EventsOk(st.out) && r == Run(r0, st.out)
    && Tracks(r, st.pos, st.attrs)
  }

  /** The replay grid has room for the row being painted. */
  ghost predicate Fits(r: Grid, ctx: RowCtx) {
    Shape(r) && ctx.row < r.rows && |ctx.cells| == r.cols && ctx.profile == r.profile
  }

  ghost predicate OtherRowsKept(r: Grid, s: Grid, row: nat) {
    |Vis(r)| == |Vis(s)| && forall i | 0 <= i < |Vis(r)| && i != row :: Vis(s)[i] == Vis(r)[i]
  }

  lemma {:induction false} Extend(r0: Grid, r: Grid, out: seq<Event>, delta: seq<Event>)
    requires Shape(r0) && EventsOk(out) && EventsOk(delta) && r == Run(r0, out)
    ensures EventsOk(out + delta) && Run(r0, out + delta) == Run(r, delta)
  {
    RunSplit(r0, out, delta);
  }

  lemma {:induction false} PenKeepsTracks(r: Grid, pos: Pos, attrs: Attrs)
    requires Tracks(r, pos, r.pen)
    ensures var s := r.(pen := attrs);
            Tracks(s, pos, attrs) && SameSetup(r, s) && Vis(s) == Vis(r)
  {
    hide ScreenOk, ScreenShape;
  }

  // ---- erase runs ----

  function EndOr(end: Option<u16>, cols: u16): u16 {
    if end.Some? then end.value else cols
  }

  function EraseTo(start: u16, end: Option<u16>): (es: seq<Event>)
    requires end.Some? ==> start <= end.value
    ensures EventsOk(es)
  {
    if end.Some? then EraseCount(end.value - start) else [EraseInLine(0)]
  }

  /** The row a flush leaves. */
  function ErasedRow(row: Row, run: EraseRun, end: Option<u16>): Row
    requires |row| <= MAX_COLS && run.start <= EndOr(end, |row|) <= |row|
  {
    EraseCells(row, run.start, EndOr(end, |row|), BlankCell(run.attrs.background))
  }

  lemma {:induction false} RunEraseTo(r: Grid, pos: Pos, run: EraseRun, end: Option<u16>, s: Grid)
    requires Tracks(r, pos, run.attrs) && pos.col == run.start < EndOr(end, r.cols) <= r.cols
    requires pos.row < |Vis(r)| && |Vis(r)[pos.row]| == r.cols <= MAX_COLS
    requires s == Run(r, EraseTo(run.start, end))
    ensures Tracks(s, pos, run.attrs)
    ensures Repainted(r, s, pos.row, ErasedRow(Vis(r)[pos.row], run, end))
  {
    hide Run, WF, EraseCells, EraseCount, EventsOk;
    if end.Some? { RunEraseCount(r, end.value - r.col); } else { RunEraseLine(r); }
  }

  /** Move, then switch the pen. */
  lemma {:induction false} MoveThenPen(r0: Grid, r: Grid, st: Painter, to: Pos, attrs: Attrs)
    requires InStep(r0, r, st) && to.row < r.rows && to.col < r.cols
    ensures to.row < U16_MAX && to.col < U16_MAX
    ensures var out := st.out + MoveFromTo(st.pos, to) + AttrsTo(attrs, st.attrs);
            && EventsOk(out)
            && var s := Run(r0, out);
            Tracks(s, to, attrs) && SameSetup(r, s) && Vis(s) == Vis(r)
  {
    hide MoveFromTo, AttrsTo, Run, EventsOk;
    RunMoveFromTo(r, st.pos, to);
    var move := MoveFromTo(st.pos, to);
    var r1 := Run(r, move);
    Extend(r0, r, st.out, move);
    hide WF;
    RunAttrsTo(r1, attrs);
    PenKeepsTracks(r1, to, attrs);
    Extend(r0, r1, st.out + move, AttrsTo(attrs, st.attrs));
  }

  lemma {:induction false} RepaintedVia(r: Grid, mid: Grid, s: Grid, row: nat, cells: Row)
    requires SameSetup(r, mid) && Vis(mid) == Vis(r) && Repainted(mid, s, row, cells)
    ensures Repainted(r, s, row, cells)
  {
  }

  lemma {:induction false} FlushOut(st: Painter, row: u16, end: Option<u16>)
    requires EventsOk(st.out) && row < U16_MAX && st.erase.Some?
    requires st.erase.value.start < U16_MAX && (end.Some? ==> st.erase.value.start <= end.value)
    ensures var run := st.erase.value;
            var pos := Pos(row, run.start);
            FlushErase(st, row, end)
              == st.(out := st.out + MoveFromTo(st.pos, pos) + AttrsTo(run.attrs, st.attrs) + EraseTo(run.start, end),
                     pos := pos, attrs := run.attrs, erase := None)
  {
    hide MoveFromTo, AttrsTo, EraseCount, EventsOk;
  }

  /** Flushing erases exactly the run, in the run's attributes. */
  lemma {:induction false} FlushEffect(r0: Grid, r: Grid, st: Painter, row: u16, end: Option<u16>, t: Painter, s: Grid)
    requires InStep(r0, r, st) && st.erase.Some? && row < r.rows && row < U16_MAX
    requires st.erase.value.start < EndOr(end, r.cols) <= r.cols <= MAX_COLS
    requires row < |Vis(r)| && |Vis(r)[row]| == r.cols
    requires t == FlushErase(st, row, end) && s == Run(r0, t.out)
    ensures InStep(r0, s, t)
    ensures Repainted(r, s, row, ErasedRow(Vis(r)[row], st.erase.value, end))
  {
    var run := st.erase.value;
    var pos := Pos(row, run.start);
    var out := st.out + MoveFromTo(st.pos, pos) + AttrsTo(run.attrs, st.attrs);
    FlushOut(st, row, end);
    hide MoveFromTo, AttrsTo, Run, WF, EventsOk, EraseTo, ErasedRow, FlushErase;
    MoveThenPen(r0, r, st, pos, run.attrs);
    var mid := Run(r0, out);
    Extend(r0, mid, out, EraseTo(run.start, end));
    RunEraseTo(mid, pos, run, end, s);
    RepaintedVia(r, mid, s, row, ErasedRow(Vis(r)[row], run, end));
  }

  // ---- content cells ----

  /** The neighbours a join could reach already look like the target's. */
  ghost predicate LeftPainted(r: Grid, ctx: RowCtx, col: nat)
    requires Fits(r, ctx) && col <= r.cols
  {
    && (forall j | 0 <= j < col :: SameLook(Vis(r)[ctx.row][j], ctx.cells[j]))
    && (ctx.row > 0 ==> ctx.prevRow.Some? && RowLooksLike(Vis(r)[ctx.row - 1], ctx.prevRow.value))
  }

  /** The join test of the replay grid agrees with the writer's hazard test. */
  lemma {:induction false} HazardAgrees(row: Row, cells: Row, col: nat)
    requires 0 < col <= |row| == |cells|
    requires forall j | 0 <= j < col :: SameLook(row[j], cells[j])
    ensures EndsWithZwj(row[LeadOf(row, col - 1)].contents) == ZwjJoinHazard(cells, col)
  {
    assert SameLook(row[col - 1], cells[col - 1]);
    assert col >= 2 ==> SameLook(row[col - 2], cells[col - 2]);
  }

  lemma {:induction false} StayReady(r: Grid, ctx: RowCtx, pos: Pos)
    requires Tracks(r, pos, r.pen) && Fits(r, ctx) && pos.row == ctx.row && pos.col < r.cols
    requires LeftPainted(r, ctx, pos.col) && !ZwjJoinHazard(ctx.cells, pos.col)
    ensures PrintsAt(r, pos)
  {
    if pos.col > 0 { HazardAgrees(Vis(r)[ctx.row], ctx.cells, pos.col); }
  }

  lemma {:induction false} WrapReady(r: Grid, ctx: RowCtx, prevPos: Pos)
    requires Tracks(r, prevPos, r.pen) && Fits(r, ctx) && NaturalWrap(ctx, Pos(ctx.row, 0), prevPos)
    requires LeftPainted(r, ctx, 0) && !ZwjWrapHazard(ctx.prevRow)
    ensures PrintsAt(r, Pos(ctx.row, 0))
  {
    HazardAgrees(Vis(r)[ctx.row - 1], ctx.prevRow.value, r.cols);
  }

  /** After the content move a print lands at `pos` and joins nothing. */
  lemma {:induction false} ContentMoveReady(r: Grid, ctx: RowCtx, pos: Pos, prevPos: Pos)
    requires CtxOk(ctx) && Tracks(r, prevPos, r.pen) && Fits(r, ctx) && pos.row == ctx.row && pos.col < r.cols
    requires LeftPainted(r, ctx, pos.col)
    ensures var s := Run(r, ContentMove(ctx, pos, prevPos));
            PrintsAt(s, pos) && SameSetup(r, s) && Vis(s) == Vis(r) && s.pen == r.pen
  {
    if pos != prevPos && NaturalWrap(ctx, pos, prevPos) && !ZwjWrapHazard(ctx.prevRow) {
      WrapReady(r, ctx, prevPos);
    } else if pos != prevPos && !NaturalWrap(ctx, pos, prevPos) {
      RunMoveFromTo(r, prevPos, pos);
    } else if pos != prevPos || ZwjJoinHazard(ctx.cells, pos.col) {
      RunMoveTo(r, pos);
    } else {
      StayReady(r, ctx, pos);
    }
  }

  lemma {:induction false} PenKeepsReady(r: Grid, pos: Pos, attrs: Attrs)
    requires PrintsAt(r, pos)
    ensures PrintsAt(r.(pen := attrs), pos)
  {
    hide ScreenOk, ScreenShape;
  }

  /** Columns a cell of the target advances the cursor by. */
  function Advance(cell: Cell): nat {
    if cell.wide then 2 else 1
  }

  lemma {:induction false} WriteOut(ctx: RowCtx, st: Painter, col: u16)
    requires CtxOk(ctx) && EventsOk(st.out) && col < |ctx.cells|
    ensures var cell := ctx.cells[col];
            var pos := Pos(ctx.row, col);
            WriteCell(ctx, st, col)
              == st.(out := st.out + ContentMove(ctx, pos, st.pos) + AttrsTo(cell.attrs,
                  st.attrs) + PrintAll(cell.contents),
                     pos := Pos(ctx.row, Min(col + Advance(cell), |ctx.cells|)), attrs := cell.attrs)
  {
    hide ContentMove, AttrsTo, PrintAll, EventsOk;
  }

  /** Move to the cell, then switch the pen: a print now lands there. */
  lemma {:induction false} ReadyToWrite(r0: Grid, r: Grid, ctx: RowCtx, st: Painter, pos: Pos, attrs: Attrs)
    requires CtxOk(ctx) && InStep(r0, r, st) && Fits(r, ctx) && pos.row == ctx.row && pos.col < r.cols
    requires LeftPainted(r, ctx, pos.col)
    ensures var out := st.out + ContentMove(ctx, pos, st.pos) + AttrsTo(attrs, st.attrs);
            && EventsOk(out)
            && var s := Run(r0, out);
            PrintsAt(s, pos) && SameSetup(r, s) && Vis(s) == Vis(r) && s.pen == attrs
  {
    hide ContentMove, AttrsTo, Run, EventsOk, LeftPainted;
    var move := ContentMove(ctx, pos, st.pos);
    ContentMoveReady(r, ctx, pos, st.pos);
    var r1 := Run(r, move);
    Extend(r0, r, st.out, move);
    hide WF, NoJoin;
    RunAttrsTo(r1, attrs);
    PenKeepsReady(r1, pos, attrs);
    Extend(r0, r1, st.out + move, AttrsTo(attrs, st.attrs));
  }

  /** Writing a content cell stamps its cluster and leaves the cursor where the writer thinks it is. */
  lemma {:induction false} WriteEffect(r0: Grid, r: Grid, ctx: RowCtx, st: Painter, col: u16, t: Painter, s: Grid)
    requires CtxOk(ctx) && InStep(r0, r, st) && Fits(r, ctx) && col < r.cols
    requires LeftPainted(r, ctx, col) && !Vis(r)[ctx.row][col].cont
    requires CellOk(ctx.profile, ctx.cells[col]) && ctx.cells[col].HasContents()
    requires t == WriteCell(ctx, st, col) && s == Run(r0, t.out)
    ensures InStep(r0, s, t) && SameSetup(r, s) && OtherRowsKept(r, s, ctx.row)
    ensures var cell := ctx.cells[col];
            Stamped(r.profile, Vis(r)[ctx.row], Vis(s)[ctx.row], col, cell.contents, |cell.contents|, cell.attrs)
  {
    hide ContentMove, AttrsTo, PrintAll, Run, WF, EventsOk, WriteCell, LeftPainted, NoJoin, ClusterOk, Widened,
      NextCell, Shape;
    var cell := ctx.cells[col];
    var pos := Pos(ctx.row, col);
    assert cell.contents[..|cell.contents|] == cell.contents;
    WriteOut(ctx, st, col);
    ReadyToWrite(r0, r, ctx, st, pos, cell.attrs);
    var out := st.out + ContentMove(ctx, pos, st.pos) + AttrsTo(cell.attrs, st.attrs);
    var mid := Run(r0, out);
    PrintCluster(mid, pos, cell.contents);
    Extend(r0, mid, out, PrintAll(cell.contents));
    hide Stamped;
  }

  // ---- the wrap jog ----

  /** Space, backspace, erase: the pending wrap carries the cursor to a blank first cell. */
  lemma {:induction false} WrapJogEffect(r: Grid, ctx: RowCtx, prevPos: Pos)
    requires Tracks(r, prevPos, r.pen) && Fits(r, ctx)
    requires NaturalWrap(ctx, Pos(ctx.row, 0), prevPos)
    requires LeftPainted(r, ctx, 0) && !ZwjWrapHazard(ctx.prevRow)
    requires !Vis(r)[ctx.row][0].cont && !Vis(r)[ctx.row][0].wide
    ensures EventsOk(WRAP_JOG)
    ensures var s := Run(r, WRAP_JOG);
            && Tracks(s, Pos(ctx.row, 0), r.pen)
            && Repainted(r, s, ctx.row, Vis(r)[ctx.row][0 := BlankCell(r.pen.background)])
  {
    hide WF, Shape, Canvas, Fits, PutGlyph, EraseCells, BlankCell, Glyph, Run, EventsOk, PrintsAt, LeftPainted,
      NaturalWrap, ZwjWrapHazard, SameSetup, RowOk;
    JogDims(r, ctx);
    WrapReady(r, ctx, prevPos);
    assert !Glyph(r, ' ').wide by { SpaceIsNarrow(r); }
    JogRow(r.profile, Vis(r)[ctx.row], Glyph(r, ' '), BlankCell(r.pen.background));
    PrintThenErase(r, Pos(ctx.row, 0));
  }

  lemma {:induction false} SpaceIsNarrow(r: Grid)
    ensures !Glyph(r, ' ').wide
  {
  }

  lemma {:induction false} JogDims(r: Grid, ctx: RowCtx)
    requires Fits(r, ctx)
    ensures ctx.row < |Vis(r)| && |Vis(r)[ctx.row]| == r.cols >= 1
  {
  }

  lemma {:induction false} PrintThenErase(r: Grid, pos: Pos)
    requires PrintsAt(r, pos)
    requires pos.row < |Vis(r)| && pos.col < |Vis(r)[pos.row]|
    ensures EventsOk(WRAP_JOG)
    ensures var s := Run(r, WRAP_JOG);
            && Tracks(s, pos, r.pen)
            && Repainted(r, s, pos.row,
                 EraseCells(PutGlyph(Vis(r)[pos.row], pos.col, Glyph(r, ' ')), pos.col, pos.col + 1,
                            BlankCell(r.pen.background)))
  {
    hide Step, ScreenOk, ScreenShape, NoJoin, EraseCells, PutGlyph, Run, EventsOk;
    StepPrint(r, ' ', pos);
    var r1 := Step(r, Print(' '));
    StepBackspace(r1);
    var r2 := Step(r1, Control(0x08));
    StepErase(r2, 0);
    RunThree(r, Print(' '), Control(0x08), EraseCharacters(0));
    assert ActiveRow(r2) == PutGlyph(Vis(r)[pos.row], pos.col, Glyph(r, ' '));
  }

  /** A narrow glyph written over a blank first cell and erased again changes that cell only. */
  lemma {:induction false} JogRow(p: Profile, was: Row, glyph: Cell, blank: Cell)
    requires |was| >= 1 && !was[0].wide && !was[0].cont && !glyph.wide
    ensures EraseCells(PutGlyph(was, 0, glyph), 0, 1, blank) == was[0 := blank]
  {
  }

  lemma {:induction false} RunThree(r: Grid, a: Event, b: Event, c: Event)
    requires Shape(r) && EventOk(a) && EventOk(b) && EventOk(c)
    ensures EventsOk([a, b, c])
    ensures Run(r, [a, b, c]) == Step(Step(Step(r, a), b), c)
  {
    hide Step;
    assert [a, b, c][1..] == [b, c] && [b, c][1..] == [c] && [c][1..] == [];
    assert Run(r, [a, b, c]) == Run(Step(r, a), [b, c]);
    assert Run(Step(r, a), [b, c]) == Run(Step(Step(r, a), b), [c]);
  }

  /** Backspace steps left from a real column and only un-parks from the phantom one. */
  lemma {:induction false} StepBackspace(r: Grid)
    requires Canvas(r) && r.col >= 1
    ensures var s := Step(r, Control(0x08));
            && Canvas(s) && SameSetup(r, s) && Vis(s) == Vis(r) && s.pen == r.pen && s.row == r.row
            && s.savedRow == r.savedRow && s.savedCol == r.savedCol
            && s.col == r.col - 1
  {
    StepKeeps(r, Control(0x08));
    hide ScreenOk, ScreenShape;
  }
}
