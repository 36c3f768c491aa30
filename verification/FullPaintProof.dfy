/** Row by row, the formatted painter turns a cleared screen into the target's cells. */
module FullPaintProof {
  import opened Basics
  import opened Cells
  import opened Rows
  import opened GridModel
  import opened Invariant
  import opened Serialize
  import opened Replay
  import opened Clusters
  import opened Painting

  /** The cells of a pending run: blanks of one attribute record. */
  ghost predicate UniformRun(cells: Row, run: EraseRun, end: nat) {
    run.start <= end <= |cells| &&
    forall j | run.start <= j < end :: cells[j].contents == "" && !cells[j].cont && cells[j].attrs == run.attrs
  }

  /** A flushed run looks like the target there; only a cut wide glyph can change the cell after it. */
  lemma {:induction false} ErasedRowSpec(p: Profile, row: Row, cells: Row, run: EraseRun, end: Option<u16>)
    requires |row| == |cells| <= MAX_COLS && CellsOk(p, cells)
    requires run.start < EndOr(end, |row|) <= |row|
    requires UniformRun(cells, run, EndOr(end, |row|)) && !row[run.start].cont
    ensures var e := ErasedRow(row, run, end);
            var stop := EndOr(end, |row|);
            && |e| == |row|
            && (forall j | 0 <= j < |row| && (j < run.start || j > stop) :: e[j] == row[j])
            && (forall j | run.start <= j < stop :: SameLook(e[j], cells[j]))
            && (stop < |row| ==> e[stop] == if row[stop - 1].wide then BlankCell(run.attrs.background) else row[stop])
  {
    forall j | run.start <= j < EndOr(end, |row|)
      ensures SameLook(BlankCell(run.attrs.background), cells[j])
    {
      assert CellOk(p, cells[j]);
    }
    hide EraseCells, CellOk;
  }

  /** First column the painter has not settled yet. */
  function Frontier(st: Painter, col: nat): nat {
    if st.skip then col + 1 else if st.erase.Some? then st.erase.value.start else col
  }

  /** Settled columns look like the target; the rest of the row is still cleared. */
  ghost predicate HalfPainted(row: Row, cells: Row, frontier: nat) {
    && |row| == |cells|
    && (forall j | 0 <= j < |row| && j < frontier :: SameLook(row[j], cells[j]))
    && (forall j | 0 <= j < |row| && j >= frontier :: row[j] == DEFAULT_CELL)
  }

  ghost predicate TargetRow(ctx: RowCtx) {
    CtxOk(ctx) && RowOk(ctx.profile, ctx.cells) && AttrsPaired(ctx.cells)
  }

  /** The row above, when there is one, is already painted. */
  ghost predicate AbovePainted(r: Grid, ctx: RowCtx)
    requires Fits(r, ctx)
  {
    ctx.row > 0 ==> ctx.prevRow.Some? && RowLooksLike(Vis(r)[ctx.row - 1], ctx.prevRow.value)
  }

  ghost predicate PainterAt(ctx: RowCtx, st: Painter, col: nat) {
    && col <= |ctx.cells|
    && (st.skip <==> 0 < col && ctx.cells[col - 1].wide)
    && (st.erase.Some? ==> !st.skip && st.erase.value.start < col && UniformRun(ctx.cells, st.erase.value, col))
  }

  /** The simulation invariant of the formatted row loop. */
  ghost predicate FormatInv(r0: Grid, base: Grid, r: Grid, ctx: RowCtx, st: Painter, col: nat) {
    && InStep(r0, r, st) && Fits(r, ctx) && AbovePainted(r, ctx)
    && SameSetup(base, r) && OtherRowsKept(base, r, ctx.row)
    && PainterAt(ctx, st, col)
    && HalfPainted(Vis(r)[ctx.row], ctx.cells, Frontier(st, col))
  }

  lemma {:induction false} FitsDims(r: Grid, ctx: RowCtx)
    requires Fits(r, ctx)
    ensures ctx.row < |Vis(r)| == r.rows && |Vis(r)[ctx.row]| == r.cols == |ctx.cells|
    ensures 1 <= r.cols <= MAX_COLS && ctx.row < U16_MAX
    ensures ctx.row > 0 ==> |Vis(r)[ctx.row - 1]| == r.cols
  {
  }

  lemma {:induction false} FitsKept(base: Grid, r: Grid, s: Grid, ctx: RowCtx)
    requires Fits(r, ctx) && AbovePainted(r, ctx) && Shape(s)
    requires SameSetup(r, s) && OtherRowsKept(r, s, ctx.row)
    requires SameSetup(base, r) && OtherRowsKept(base, r, ctx.row)
    ensures Fits(s, ctx) && AbovePainted(s, ctx) && SameSetup(base, s) && OtherRowsKept(base, s, ctx.row)
  {
    FitsDims(r, ctx);
    hide Shape;
  }

  lemma {:induction false} RepaintedKeepsOthers(r: Grid, s: Grid, row: nat, cells: Row)
    requires Repainted(r, s, row, cells)
    ensures OtherRowsKept(r, s, row) && Vis(s)[row] == cells
  {
  }

  lemma {:induction false} FormatFlush(r0: Grid, base: Grid, r: Grid, ctx: RowCtx, st: Painter, col: nat,
      end: Option<u16>, t: Painter, s: Grid)
    requires TargetRow(ctx) && FormatInv(r0, base, r, ctx, st, col) && st.erase.Some?
    requires col == EndOr(end, r.cols)
    requires t == FlushErase(st, ctx.row, end) && s == Run(r0, t.out)
    ensures FormatInv(r0, base, s, ctx, t, col)
  {
    hide WF, Shape, FlushErase, Run, ErasedRow, CellsOk, Paired, AttrsPaired, EventsOk, CellOk, SameSetup, AbovePainted,
      OtherRowsKept, HalfPainted, UniformRun;
    assert PainterAt(ctx, st, col);
    FitsDims(r, ctx);
    var run := st.erase.value;
    var row := Vis(r)[ctx.row];
    FlushEffect(r0, r, st, ctx.row, end, t, s);
    FlushOut(st, ctx.row, end);
    FlushPaints(ctx.profile, row, ctx.cells, run, end);
    RepaintedKeepsOthers(r, s, ctx.row, ErasedRow(row, run, end));
    InStepShape(r0, s, t);
    FitsKept(base, r, s, ctx);
    FormatFlushed(r0, base, s, ctx, st, col, t);
  }

  lemma {:induction false} FormatFlushed(r0: Grid, base: Grid, s: Grid, ctx: RowCtx, st: Painter, col: nat, t: Painter)
    requires PainterAt(ctx, st, col) && st.erase.Some?
      && t == st.(out := t.out, pos := t.pos, attrs := t.attrs, erase := None)
    requires InStep(r0, s, t) && Fits(s, ctx) && AbovePainted(s, ctx)
    requires SameSetup(base, s) && OtherRowsKept(base, s, ctx.row)
    requires HalfPainted(Vis(s)[ctx.row], ctx.cells, col)
    ensures FormatInv(r0, base, s, ctx, t, col)
  {
    hide HalfPainted, SameSetup, OtherRowsKept, AbovePainted, Tracks, Fits, Run, EventsOk, Shape, UniformRun;
  }

  lemma {:induction false} FlushPaints(p: Profile, row: Row, cells: Row, run: EraseRun, end: Option<u16>)
    requires |row| == |cells| <= MAX_COLS && CellsOk(p, cells)
    requires run.start < EndOr(end, |row|) <= |row|
    requires UniformRun(cells, run, EndOr(end, |row|)) && HalfPainted(row, cells, run.start)
    ensures HalfPainted(ErasedRow(row, run, end), cells, EndOr(end, |row|))
  {
    hide ErasedRow, CellsOk, UniformRun;
    ErasedRowSpec(p, row, cells, run, end);
  }

  lemma {:induction false} InStepShape(r0: Grid, r: Grid, st: Painter)
    requires InStep(r0, r, st)
    ensures Shape(r)
  {
  }

  /** Stamping a cell over a cleared tail settles it, and its continuation when it is wide. */
  lemma {:induction false} StampSettles(p: Profile, was: Row, now: Row, cells: Row, col: nat)
    requires RowOk(p, cells) && AttrsPaired(cells) && col < |cells| && cells[col].HasContents()
    requires HalfPainted(was, cells, col)
    requires Stamped(p, was, now, col, cells[col].contents, |cells[col].contents|, cells[col].attrs)
    ensures HalfPainted(now, cells, col + (if cells[col].wide then 2 else 1))
  {
    var s := cells[col].contents;
    assert s[..|s|] == s;
    assert CellOk(p, cells[col]) && PairedAt(cells, col);
    assert col + 1 < |cells| ==> CellOk(p, cells[col + 1]);
    hide Widened, CellsOk, Paired;
  }

  lemma {:induction false} LeftIsPainted(r: Grid, ctx: RowCtx, col: nat)
    requires Fits(r, ctx) && AbovePainted(r, ctx) && col < r.cols
    requires HalfPainted(Vis(r)[ctx.row], ctx.cells, col)
    ensures LeftPainted(r, ctx, col) && !Vis(r)[ctx.row][col].cont
  {
    hide Shape;
  }

  lemma {:induction false} FormatWrite(r0: Grid, base: Grid, r: Grid, ctx: RowCtx, st: Painter, col: u16, t: Painter,
      s: Grid)
    requires TargetRow(ctx) && FormatInv(r0, base, r, ctx, st, col) && st.erase.None? && !st.skip
    requires col < |ctx.cells| && ctx.cells[col].HasContents()
    requires t == WriteCell(ctx, st, col).(skip := ctx.cells[col].wide) && s == Run(r0, t.out)
    ensures FormatInv(r0, base, s, ctx, t, col + 1)
  {
    hide WF, Shape, Run, Paired, AttrsPaired, WriteCell, Stamped, EventsOk, HalfPainted, LeftPainted, CellOk,
      UniformRun, SameSetup, AbovePainted, OtherRowsKept;
    FitsDims(r, ctx);
    assert CellOk(ctx.profile, ctx.cells[col]);
    hide CellsOk;
    var u := WriteCell(ctx, st, col);
    LeftIsPainted(r, ctx, col);
    WriteEffect(r0, r, ctx, st, col, u, s);
    InStepShape(r0, s, u);
    FitsKept(base, r, s, ctx);
    FitsDims(s, ctx);
    StampSettles(ctx.profile, Vis(r)[ctx.row], Vis(s)[ctx.row], ctx.cells, col);
    WriteOut(ctx, st, col);
    FormatWritten(r0, base, s, ctx, col, u, t);
  }

  lemma {:induction false} FormatWritten(r0: Grid, base: Grid, s: Grid, ctx: RowCtx, col: u16, u: Painter, t: Painter)
    requires col < |ctx.cells| && ctx.cells[col].HasContents()
    requires InStep(r0, s, u) && Fits(s, ctx) && AbovePainted(s, ctx)
    requires SameSetup(base, s) && OtherRowsKept(base, s, ctx.row)
    requires u.erase.None? && t == u.(skip := ctx.cells[col].wide)
    requires HalfPainted(Vis(s)[ctx.row], ctx.cells, col + (if ctx.cells[col].wide then 2 else 1))
    ensures FormatInv(r0, base, s, ctx, t, col + 1)
  {
    hide HalfPainted, SameSetup, OtherRowsKept, AbovePainted, Tracks, Fits, Run, EventsOk, Shape;
  }

  /** One cell of the formatted painter. */
  lemma {:induction false} FormatCellStep(r0: Grid, base: Grid, r: Grid, ctx: RowCtx, st: Painter, col: u16)
    requires TargetRow(ctx) && FormatInv(r0, base, r, ctx, st, col) && col < |ctx.cells|
    ensures PainterOk(st, |ctx.cells|) && (st.erase.Some? ==> st.erase.value.start <= col)
    ensures var t := FormatCell(ctx, st, col); FormatInv(r0, base, Run(r0, t.out), ctx, t, col + 1)
  {
    hide Canvas, Run, CellsOk, Paired, AttrsPaired, EventsOk, SameSetup, OtherRowsKept, AbovePainted, WriteCell,
      HalfPainted;
    FitsDims(r, ctx);
    var cell := ctx.cells[col];
    if st.skip {
      SkipStep(r0, base, r, ctx, st, col);
    } else {
      var st1, r1 := st, r;
      if MustFlush(st, cell) {
        st1 := FlushErase(st, ctx.row, Some(col));
        r1 := Run(r0, st1.out);
        FormatFlush(r0, base, r, ctx, st, col, Some(col), st1, r1);
      }
      if cell.HasContents() {
        var t := WriteCell(ctx, st1, col).(skip := cell.wide);
        FormatWrite(r0, base, r1, ctx, st1, col, t, Run(r0, t.out));
      } else {
        BlankStep(r0, base, r1, ctx, st1, col);
      }
    }
  }

  lemma {:induction false} SkipStep(r0: Grid, base: Grid, r: Grid, ctx: RowCtx, st: Painter, col: u16)
    requires TargetRow(ctx) && FormatInv(r0, base, r, ctx, st, col) && col < |ctx.cells| && st.skip
    ensures FormatInv(r0, base, r, ctx, st.(skip := false), col + 1)
  {
    assert PairedAt(ctx.cells, col) && PairedAt(ctx.cells, col - 1);
    hide WF, Shape, Run, CellsOk, Paired, AttrsPaired, EventsOk, SameSetup, OtherRowsKept, AbovePainted;
  }

  /** A blank cell opens a run, extends one, or is already clear. */
  lemma {:induction false} BlankStep(r0: Grid, base: Grid, r: Grid, ctx: RowCtx, st: Painter, col: u16)
    requires TargetRow(ctx) && FormatInv(r0, base, r, ctx, st, col) && col < |ctx.cells| && !st.skip
    requires !ctx.cells[col].HasContents() && !MustFlush(st, ctx.cells[col])
    ensures var cell := ctx.cells[col];
            var t := if cell != DEFAULT_CELL && st.erase.None? then st.(erase := Some(EraseRun(col, cell.attrs)))
                else st;
            FormatInv(r0, base, r, ctx, t.(skip := cell.wide), col + 1)
  {
    hide Canvas, Shape, Run, CellsOk, Paired, AttrsPaired, EventsOk, SameSetup, OtherRowsKept, AbovePainted, CellOk;
    var cell := ctx.cells[col];
    assert cell == BlankCell(cell.attrs.background) by { BlankIsBlank(ctx.profile, ctx.cells, col, st.skip); }
  }

  /** A blank cell that does not follow a wide lead is a plain background blank. */
  lemma {:induction false} BlankIsBlank(p: Profile, cells: Row, col: nat, afterWide: bool)
    requires RowOk(p, cells) && col < |cells| && !cells[col].HasContents()
    requires !(0 < col && cells[col - 1].wide)
    ensures cells[col] == BlankCell(cells[col].attrs.background)
  {
    assert PairedAt(cells, col) && CellOk(p, cells[col]);
  }

  // ---- a whole row ----

  lemma {:induction false} FormatInvOk(r0: Grid, base: Grid, r: Grid, ctx: RowCtx, st: Painter, col: nat)
    requires FormatInv(r0, base, r, ctx, st, col)
    ensures PainterOk(st, |ctx.cells|) && (st.erase.Some? ==> st.erase.value.start <= col) && col <= |ctx.cells|
    ensures Shape(r0) && EventsOk(st.out) && r == Run(r0, st.out)
  {
    hide WF, Run, Tracks, SameSetup, OtherRowsKept, AbovePainted, EventsOk, HalfPainted;
    FitsDims(r, ctx);
  }

  lemma {:induction false} FormatFromEffect(r0: Grid, base: Grid, r: Grid, ctx: RowCtx, st: Painter, col: nat)
    requires TargetRow(ctx) && FormatInv(r0, base, r, ctx, st, col)
    ensures PainterOk(st, |ctx.cells|) && (st.erase.Some? ==> st.erase.value.start <= col)
    ensures col <= |ctx.cells| && Shape(r0)
    ensures var t := FormatFrom(ctx, st, col); FormatInv(r0, base, Run(r0, t.out), ctx, t, |ctx.cells|)
    decreases |ctx.cells| - col
  {
    hide FormatInv, Run, EventsOk, FormatCell, Shape, RowOk, AttrsPaired;
    FormatInvOk(r0, base, r, ctx, st, col);
    if col < |ctx.cells| {
      FormatCellStep(r0, base, r, ctx, st, col);
      var t := FormatCell(ctx, st, col);
      FormatFromEffect(r0, base, Run(r0, t.out), ctx, t, col + 1);
    }
  }

  /** What a painted row guarantees to the next one. */
  ghost predicate RowPainted(r0: Grid, base: Grid, s: Grid, ctx: RowCtx, t: Painter) {
    && InStep(r0, s, t) && Fits(s, ctx)
    && SameSetup(base, s) && OtherRowsKept(base, s, ctx.row)
    && RowLooksLike(Vis(s)[ctx.row], ctx.cells)
  }

  lemma {:induction false} FormatEnd(r0: Grid, base: Grid, r: Grid, ctx: RowCtx, st: Painter)
    requires TargetRow(ctx) && FormatInv(r0, base, r, ctx, st, |ctx.cells|)
    ensures PainterOk(st, |ctx.cells|)
    ensures var t := FlushErase(st, ctx.row, None); RowPainted(r0, base, Run(r0, t.out), ctx, t)
  {
    FitsDims(r, ctx);
    var t := FlushErase(st, ctx.row, None);
    if st.erase.Some? {
      FormatFlush(r0, base, r, ctx, st, |ctx.cells|, None, t, Run(r0, t.out));
    }
    hide WF, Shape, Run, TargetRow, EventsOk, SameSetup, OtherRowsKept, AbovePainted;
  }

  /** A row the painter starts on: cleared, under painted rows, with the bookkeeping in step. */
  ghost predicate ReadyForRow(r0: Grid, r: Grid, ctx: RowCtx, out: seq<Event>, pos: Pos, attrs: Attrs) {
    && Shape(r0) && EventsOk(out) && r == Run(r0, out) && Tracks(r, pos, attrs)
    && Fits(r, ctx) && AbovePainted(r, ctx)
    && Vis(r)[ctx.row] == BlankRow(|ctx.cells|)
  }

  /** A painter with nothing pending, at the left edge of a cleared row. */
  lemma {:induction false} PlainStart(r0: Grid, base: Grid, r: Grid, ctx: RowCtx, st: Painter)
    requires CtxOk(ctx) && InStep(r0, r, st) && Fits(r, ctx) && AbovePainted(r, ctx)
    requires SameSetup(base, r) && OtherRowsKept(base, r, ctx.row)
    requires Vis(r)[ctx.row] == BlankRow(|ctx.cells|)
    requires st.erase.None? && !st.skip
    ensures FormatInv(r0, base, r, ctx, st, 0)
  {
    hide WF, Shape, Run, EventsOk;
  }

  lemma {:induction false} JogKeepsBlank(row: Row, cols: nat)
    requires row == BlankRow(cols) && cols >= 1
    ensures row[0 := BlankCell(DEFAULT_ATTRS.background)] == row
  {
  }

  lemma {:induction false} StartByJog(r0: Grid, r: Grid, ctx: RowCtx, out: seq<Event>, pos: Pos, attrs: Attrs, s: Grid)
    requires CtxOk(ctx) && ReadyForRow(r0, r, ctx, out, pos, attrs)
    requires NaturalWrap(ctx, Pos(ctx.row, 0), pos) && !ZwjWrapHazard(ctx.prevRow)
    requires EventsOk(out + AttrsTo(DEFAULT_ATTRS, attrs) + WRAP_JOG)
    requires s == Run(r0, out + AttrsTo(DEFAULT_ATTRS, attrs) + WRAP_JOG)
    ensures Tracks(s, Pos(ctx.row, 0), DEFAULT_ATTRS) && SameSetup(r, s) && Vis(s) == Vis(r)
  {
    FitsDims(r, ctx);
    var row := Vis(r)[ctx.row];
    hide Run, WF, AttrsTo, EventsOk, Shape, BlankRow;
    RunAttrsTo(r, DEFAULT_ATTRS);
    Extend(r0, r, out, AttrsTo(DEFAULT_ATTRS, attrs));
    PenKeepsTracks(r, pos, DEFAULT_ATTRS);
    var r1 := r.(pen := DEFAULT_ATTRS);
    assert Fits(r1, ctx) && LeftPainted(r1, ctx, 0) by { PenKeepsFits(r, ctx, DEFAULT_ATTRS); }
    JogKeepsBlank(row, |ctx.cells|);
    BlankRowFirst(|ctx.cells|);
    WrapJogEffect(r1, ctx, pos);
    Extend(r0, r1, out + AttrsTo(DEFAULT_ATTRS, attrs), WRAP_JOG);
    assert Vis(s) == Vis(r)[ctx.row := row];
  }

  lemma {:induction false} BlankRowFirst(cols: nat)
    requires cols >= 1
    ensures BlankRow(cols)[0] == DEFAULT_CELL
  {
  }

  lemma {:induction false} PenKeepsFits(r: Grid, ctx: RowCtx, attrs: Attrs)
    requires Fits(r, ctx) && AbovePainted(r, ctx)
    ensures Fits(r.(pen := attrs), ctx) && LeftPainted(r.(pen := attrs), ctx, 0)
  {
  }

  lemma {:induction false} StartByMove(r0: Grid, r: Grid, ctx: RowCtx, out: seq<Event>, pos: Pos, attrs: Attrs, s: Grid)
    requires CtxOk(ctx) && ReadyForRow(r0, r, ctx, out, pos, attrs)
    requires EventsOk(out + MoveTo(Pos(ctx.row, 0))) && s == Run(r0, out + MoveTo(Pos(ctx.row, 0)))
    ensures Tracks(s, Pos(ctx.row, 0), attrs) && SameSetup(r, s) && Vis(s) == Vis(r)
  {
    FitsDims(r, ctx);
    hide Run, MoveTo, EventsOk, WF;
    RunMoveTo(r, Pos(ctx.row, 0));
    Extend(r0, r, out, MoveTo(Pos(ctx.row, 0)));
  }

  lemma {:induction false} FormatStartEffect(r0: Grid, r: Grid, ctx: RowCtx, out: seq<Event>, pos: Pos, attrs: Attrs)
    requires TargetRow(ctx) && ReadyForRow(r0, r, ctx, out, pos, attrs)
    ensures var st := FormatStart(ctx, out, pos, attrs); FormatInv(r0, r, Run(r0, st.out), ctx, st, 0)
  {
    FitsDims(r, ctx);
    var st := FormatStart(ctx, out, pos, attrs);
    var s := Run(r0, st.out);
    if ctx.wrapping && ctx.cells[0] == DEFAULT_CELL {
      if pos.row + 1 == ctx.row && pos.col >= |ctx.cells| && !ZwjWrapHazard(ctx.prevRow) {
        StartByJog(r0, r, ctx, out, pos, attrs, s);
      } else {
        StartByMove(r0, r, ctx, out, pos, attrs, s);
      }
    }
    hide Run, AttrsTo, MoveTo, EventsOk, WF, TargetRow, BlankRow;
    InStepShape(r0, s, st);
    FitsKept(r, r, s, ctx);
    PlainStart(r0, r, s, ctx, st);
  }

  /** One formatted row: the replay row looks like the target's and the bookkeeping stays in step. */
  lemma {:induction false} FormatRowEffect(r0: Grid, r: Grid, ctx: RowCtx, out: seq<Event>, pos: Pos, attrs: Attrs)
    requires TargetRow(ctx) && ReadyForRow(r0, r, ctx, out, pos, attrs)
    ensures var t := FormatRow(ctx, out, pos, attrs); RowPainted(r0, r, Run(r0, t.out), ctx, t)
  {
    var st := FormatStart(ctx, out, pos, attrs);
    FormatStartEffect(r0, r, ctx, out, pos, attrs);
    hide Run, FormatStart, FormatFrom, FormatInv, WF;
    FormatFromEffect(r0, r, Run(r0, st.out), ctx, st, 0);
    var t := FormatFrom(ctx, st, 0);
    FormatEnd(r0, r, Run(r0, t.out), ctx, t);
  }
}
