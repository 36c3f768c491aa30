/** Diff round trip: the diff painter repaints every side effect, so a replay of `prev` becomes the target. */
module DiffProof {
  import opened Basics
  import opened Cells
  import opened Rows
  import opened GridModel
  import opened Invariant
  import opened Serialize
  import opened Replay
  import opened Clusters
  import opened Painting
  import opened FullPaintProof
  import opened ModesProof
  import opened RoundTrip

  /** A cell with neither contents nor a wide partner. */
  predicate Plain(c: Cell) {
    c.contents == "" && !c.wide && !c.cont
  }

  /**
    * How an unsettled cell may differ from the previous state: the frontier cell may have been blanked when it must
    * be repainted anyway, and so may the continuation of a wide glyph the frontier used to hold.
    */
  predicate Unsettled(row: Row, prev: Row, frontier: nat, loose: bool, j: nat)
    requires |row| == |prev| && frontier <= j < |row|
  {
    || SameLook(row[j], prev[j])
    || (j == frontier && Plain(row[j]) && (loose || prev[j].cont))
    || (j == frontier + 1 && Plain(row[j]) && loose && prev[frontier].wide)
  }

  /** Settled columns look like the target; the rest looks like the previous state, up to known side effects. */
  ghost predicate HalfDiffed(row: Row, cells: Row, prev: Row, frontier: nat, loose: bool) {
    && |row| == |cells| == |prev|
    && (forall j | 0 <= j < |row| && j < frontier :: SameLook(row[j], cells[j]))
    && (forall j | 0 <= j < |row| && j >= frontier :: Unsettled(row, prev, frontier, loose, j))
  }

  ghost predicate PrevRowOk(ctx: RowCtx, prev: Row) {
    |prev| == |ctx.cells| && RowOk(ctx.profile, prev) && AttrsPaired(prev)
  }

  predicate Loose(st: Painter) {
    st.repaint || st.erase.Some?
  }

  /** The simulation invariant of the diff row loop. */
  ghost predicate DiffInv(r0: Grid, base: Grid, r: Grid, ctx: RowCtx, prev: Row, st: Painter, col: nat) {
    && InStep(r0, r, st) && Fits(r, ctx) && AbovePainted(r, ctx)
    && SameSetup(base, r) && OtherRowsKept(base, r, ctx.row)
    && PainterAt(ctx, st, col) && (st.skip || st.erase.Some? ==> !st.repaint)
    && HalfDiffed(Vis(r)[ctx.row], ctx.cells, prev, Frontier(st, col), Loose(st))
  }

  // ---- what each stroke does to the row ----

  /** A flush settles the run; a wide glyph it cuts leaves a blank that the previous state did not have there. */
  lemma {:induction false} FlushSettles(p: Profile, row: Row, cells: Row, prev: Row, run: EraseRun, end: Option<u16>,
      loose: bool)
    requires |row| <= MAX_COLS && CellsOk(p, cells) && Paired(prev)
    requires HalfDiffed(row, cells, prev, run.start, loose)
    requires run.start < EndOr(end, |row|) <= |row| && UniformRun(cells, run, EndOr(end, |row|))
    requires !row[run.start].cont
    ensures HalfDiffed(ErasedRow(row, run, end), cells, prev, EndOr(end, |row|), false)
  {
    var e := ErasedRow(row, run, end);
    var stop := EndOr(end, |row|);
    ErasedRowSpec(p, row, cells, run, end);
    hide ErasedRow, CellsOk, UniformRun;
    if stop < |row| {
      assert Unsettled(row, prev, run.start, loose, stop);
      assert Unsettled(row, prev, run.start, loose, stop - 1);
      assert PairedAt(prev, stop - 1) && PairedAt(prev, run.start);
      assert Unsettled(e, prev, stop, false, stop);
    }
    forall j | stop < j < |row| ensures Unsettled(e, prev, stop, false, j) {
      assert Unsettled(row, prev, run.start, loose, j);
    }
  }

  /** A narrow cluster with a wide prefix has a wide base, so the painter knows it narrows on replay. */
  lemma {:induction false} WidenedNarrows(p: Profile, cell: Cell)
    requires NarrowBaseStaysWide(p) && CellOk(p, cell) && cell.HasContents() && !cell.wide
    requires Widened(p, cell.contents, |cell.contents|)
    ensures NarrowsOnReplay(p, cell)
  {
    var s := cell.contents;
    var m :| 1 <= m <= |s| && WideCluster(p, s[..m]);
    assert s[..|s|] == s;
  }

  /** Writing a content cell settles it; every side effect lands where the next cells must be repainted. */
  lemma {:induction false} StampDiffSettles(p: Profile, was: Row, now: Row, cells: Row, prev: Row, col: nat,
      loose: bool)
    requires NarrowBaseStaysWide(p) && RowOk(p, cells) && AttrsPaired(cells) && Paired(prev)
    requires col < |cells| && cells[col].HasContents()
    requires HalfDiffed(was, cells, prev, col, loose)
    requires Stamped(p, was, now, col, cells[col].contents, |cells[col].contents|, cells[col].attrs)
    ensures HalfDiffed(now, cells, prev, col + Advance(cells[col]), NarrowsOnReplay(p, cells[col]))
  {
    var s := cells[col].contents;
    var f := col + Advance(cells[col]);
    var narrows := NarrowsOnReplay(p, cells[col]);
    assert s[..|s|] == s;
    assert CellOk(p, cells[col]) && PairedAt(cells, col);
    assert col + 1 < |cells| ==> CellOk(p, cells[col + 1]);
    assert !cells[col].wide && Widened(p, s, |s|) ==> narrows by {
      if !cells[col].wide && Widened(p, s, |s|) { WidenedNarrows(p, cells[col]); }
    }
    assert PairedAt(prev, col) && (col + 1 < |prev| ==> PairedAt(prev, col + 1));
    assert Unsettled(was, prev, col, loose, col);
    assert col + 1 < |was| ==> Unsettled(was, prev, col, loose, col + 1);
    hide Widened, CellsOk, Paired, CellOk, NarrowsOnReplay, NarrowBaseStaysWide;
    forall j | 0 <= j < |now| && j >= f ensures Unsettled(now, prev, f, narrows, j) {
      assert Unsettled(was, prev, col, loose, j);
    }
    forall j | 0 <= j < |now| && j < f ensures SameLook(now[j], cells[j]) { }
  }

  /** A cell the diff skips already looks like the target. */
  lemma {:induction false} SkippedIsSettled(p: Profile, row: Row, cells: Row, prev: Row, col: nat)
    requires RowOk(p, cells) && AttrsPaired(cells) && RowOk(p, prev) && AttrsPaired(prev)
    requires col < |cells| && HalfDiffed(row, cells, prev, col, false)
    requires cells[col] == prev[col] && !cells[col].cont
    ensures HalfDiffed(row, cells, prev, col + Advance(cells[col]), false)
  {
    var f := col + Advance(cells[col]);
    assert Unsettled(row, prev, col, false, col);
    if cells[col].wide && col + 1 < |cells| {
      assert PairedAt(cells, col) && PairedAt(prev, col);
      assert CellOk(p, cells[col + 1]) && CellOk(p, prev[col + 1]);
      assert Unsettled(row, prev, col, false, col + 1);
    }
    hide RowOk, AttrsPaired, CellOk;
    forall j | 0 <= j < |row| && j >= f ensures Unsettled(row, prev, f, false, j) {
      assert Unsettled(row, prev, col, false, j);
    }
  }

  /** Opening a run, or having one open, only loosens what is allowed at the frontier. */
  lemma {:induction false} LoosenHalf(row: Row, cells: Row, prev: Row, f: nat, loose: bool)
    requires HalfDiffed(row, cells, prev, f, loose)
    ensures HalfDiffed(row, cells, prev, f, true)
  {
    forall j | 0 <= j < |row| && j >= f ensures Unsettled(row, prev, f, true, j) {
      assert Unsettled(row, prev, f, loose, j);
    }
  }

  // ---- the row loop ----

  /** A column the painter stops at is not the second half of a glyph, in the target or in the replay. */
  lemma {:induction false} FrontierIsNoContinuation(r: Grid, ctx: RowCtx, prev: Row, f: nat, loose: bool)
    requires WF(r) && Fits(r, ctx) && f < r.cols
    requires HalfDiffed(Vis(r)[ctx.row], ctx.cells, prev, f, loose)
    requires !(0 < f && ctx.cells[f - 1].wide)
    ensures !Vis(r)[ctx.row][f].cont
  {
    var row := Vis(r)[ctx.row];
    assert RowOk(r.profile, row);
    assert PairedAt(row, f);
    assert f > 0 ==> SameLook(row[f - 1], ctx.cells[f - 1]);
  }

  lemma {:induction false} RunStartsClean(ctx: RowCtx, run: EraseRun, end: nat)
    requires RowOk(ctx.profile, ctx.cells) && UniformRun(ctx.cells, run, end) && run.start < end
    ensures !(0 < run.start && ctx.cells[run.start - 1].wide)
  {
    if 0 < run.start { assert PairedAt(ctx.cells, run.start - 1); }
  }

  lemma {:induction false} DiffFlush(r0: Grid, base: Grid, r: Grid, ctx: RowCtx, prev: Row, st: Painter, col: nat,
      end: Option<u16>, t: Painter, s: Grid)
    requires TargetRow(ctx) && PrevRowOk(ctx, prev) && DiffInv(r0, base, r, ctx, prev, st, col) && st.erase.Some?
    requires col == EndOr(end, r.cols)
    requires t == FlushErase(st, ctx.row, end) && s == Run(r0, t.out)
    ensures DiffInv(r0, base, s, ctx, prev, t, col)
  {
    hide WF, Shape, FlushErase, Run, ErasedRow, CellsOk, Paired, AttrsPaired, HalfDiffed, EventsOk, UniformRun,
      SameSetup, OtherRowsKept, AbovePainted;
    FitsDims(r, ctx);
    var run := st.erase.value;
    var row := Vis(r)[ctx.row];
    RunStartsClean(ctx, run, col);
    FrontierIsNoContinuation(r, ctx, prev, run.start, true);
    FlushSettles(ctx.profile, row, ctx.cells, prev, run, end, true);
    FlushEffect(r0, r, st, ctx.row, end, t, s);
    FlushOut(st, ctx.row, end);
    RepaintedKeepsOthers(r, s, ctx.row, ErasedRow(row, run, end));
    InStepShape(r0, s, t);
    FlushKeepsSetup(r, s, ctx.row, ErasedRow(row, run, end));
    FitsKept(base, r, s, ctx);
    DiffFlushed(r0, base, s, ctx, prev, st, t, col);
  }

  lemma {:induction false} FlushKeepsSetup(r: Grid, s: Grid, row: nat, cells: Row)
    requires Repainted(r, s, row, cells)
    ensures SameSetup(r, s)
  {
  }

  lemma {:induction false} DiffFlushed(r0: Grid, base: Grid, s: Grid, ctx: RowCtx, prev: Row, st: Painter, t: Painter,
      col: nat)
    requires PainterAt(ctx, st, col) && st.erase.Some? && !st.repaint
    requires InStep(r0, s, t) && Fits(s, ctx) && AbovePainted(s, ctx)
    requires SameSetup(base, s) && OtherRowsKept(base, s, ctx.row)
    requires t == st.(out := t.out, pos := t.pos, attrs := t.attrs, erase := None)
    requires HalfDiffed(Vis(s)[ctx.row], ctx.cells, prev, col, false)
    ensures DiffInv(r0, base, s, ctx, prev, t, col)
  {
    hide HalfDiffed, SameSetup, OtherRowsKept, AbovePainted, Tracks, Fits, Run, EventsOk, Shape, UniformRun;
  }

  lemma {:induction false} DiffWriteReady(r0: Grid, base: Grid, r: Grid, ctx: RowCtx, prev: Row, st: Painter, col: u16)
    requires DiffInv(r0, base, r, ctx, prev, st, col) && st.erase.None? && !st.skip && col < |ctx.cells|
    ensures Fits(r, ctx) && LeftPainted(r, ctx, col)
    ensures ctx.row < |Vis(r)| && col < |Vis(r)[ctx.row]| && !Vis(r)[ctx.row][col].cont
  {
    FitsDims(r, ctx);
    FrontierIsNoContinuation(r, ctx, prev, col, Loose(st));
    hide WF, Shape, Run, SameSetup, OtherRowsKept, EventsOk;
  }

  lemma {:induction false} DiffWrite(r0: Grid, base: Grid, r: Grid, ctx: RowCtx, prev: Row, st: Painter, col: u16,
      t: Painter, s: Grid)
    requires TargetRow(ctx) && PrevRowOk(ctx, prev) && NarrowBaseStaysWide(ctx.profile)
    requires DiffInv(r0, base, r, ctx, prev, st, col) && st.erase.None? && !st.skip
    requires col < |ctx.cells| && ctx.cells[col].HasContents()
    requires t == WriteCell(ctx, st, col).(skip := ctx.cells[col].wide,
      repaint := NarrowsOnReplay(ctx.profile, ctx.cells[col]))
    requires s == Run(r0, t.out)
    ensures DiffInv(r0, base, s, ctx, prev, t, col + 1)
  {
    hide WF, Shape, Run, Paired, AttrsPaired, WriteCell, Stamped, EventsOk, LeftPainted, CellOk, NarrowBaseStaysWide,
      HalfDiffed, NarrowsOnReplay, UniformRun, SameSetup, OtherRowsKept, AbovePainted;
    DiffWriteReady(r0, base, r, ctx, prev, st, col);
    FitsDims(r, ctx);
    assert CellOk(ctx.profile, ctx.cells[col]);
    hide CellsOk;
    var u := WriteCell(ctx, st, col);
    WriteEffect(r0, r, ctx, st, col, u, s);
    InStepShape(r0, s, u);
    FitsKept(base, r, s, ctx);
    FitsDims(s, ctx);
    StampDiffSettles(ctx.profile, Vis(r)[ctx.row], Vis(s)[ctx.row], ctx.cells, prev, col, Loose(st));
    WriteOut(ctx, st, col);
    DiffWritten(r0, base, s, ctx, prev, st, col, u, t);
  }

  lemma {:induction false} DiffWritten(r0: Grid, base: Grid, s: Grid, ctx: RowCtx, prev: Row, st: Painter, col: u16,
      u: Painter, t: Painter)
    requires col < |ctx.cells| && ctx.cells[col].HasContents()
    requires InStep(r0, s, u) && Fits(s, ctx) && AbovePainted(s, ctx)
    requires SameSetup(base, s) && OtherRowsKept(base, s, ctx.row)
    requires u.erase.None?
    requires t == u.(skip := ctx.cells[col].wide, repaint := NarrowsOnReplay(ctx.profile, ctx.cells[col]))
    requires HalfDiffed(Vis(s)[ctx.row], ctx.cells, prev, col + Advance(ctx.cells[col]),
      NarrowsOnReplay(ctx.profile, ctx.cells[col]))
    ensures DiffInv(r0, base, s, ctx, prev, t, col + 1)
  {
    hide HalfDiffed, SameSetup, OtherRowsKept, AbovePainted, Tracks, Fits, Run, EventsOk, Shape;
  }

  lemma {:induction false} DiffSkip(r0: Grid, base: Grid, r: Grid, ctx: RowCtx, prev: Row, st: Painter, col: u16)
    requires TargetRow(ctx) && DiffInv(r0, base, r, ctx, prev, st, col) && col < |ctx.cells| && st.skip
    ensures DiffInv(r0, base, r, ctx, prev, st.(skip := false), col + 1)
  {
    assert PairedAt(ctx.cells, col) && PairedAt(ctx.cells, col - 1);
    hide WF, Shape, Run, CellsOk, Paired, AttrsPaired, EventsOk, SameSetup, OtherRowsKept, AbovePainted, HalfDiffed;
  }

  /** A blank cell to paint opens a run or extends one. */
  lemma {:induction false} DiffBlank(r0: Grid, base: Grid, r: Grid, ctx: RowCtx, prev: Row, st: Painter, col: u16)
    requires TargetRow(ctx) && DiffInv(r0, base, r, ctx, prev, st, col) && col < |ctx.cells| && !st.skip
    requires !ctx.cells[col].HasContents() && !MustFlush(st, ctx.cells[col])
    ensures var cell := ctx.cells[col];
            var t := if st.erase.None? then st.(erase := Some(EraseRun(col, cell.attrs))) else st;
            DiffInv(r0, base, r, ctx, prev, t.(skip := cell.wide, repaint := false), col + 1)
  {
    hide Canvas, Shape, Run, CellsOk, AttrsPaired, EventsOk, SameSetup, OtherRowsKept, AbovePainted, HalfDiffed;
    FitsDims(r, ctx);
    assert PairedAt(ctx.cells, col);
    assert !ctx.cells[col].wide by { BlankIsBlank(ctx.profile, ctx.cells, col, st.skip); }
    LoosenHalf(Vis(r)[ctx.row], ctx.cells, prev, Frontier(st, col), Loose(st));
  }

  /** An unchanged cell is left alone, or swallowed by an open run of its own attributes. */
  lemma {:induction false} DiffUnchanged(r0: Grid, base: Grid, r: Grid, ctx: RowCtx, prev: Row, st: Painter, col: u16)
    requires TargetRow(ctx) && PrevRowOk(ctx, prev) && DiffInv(r0, base, r, ctx, prev, st, col)
    requires col < |ctx.cells| && !st.skip && !st.repaint
    requires ctx.cells[col] == prev[col] && !MustFlush(st, ctx.cells[col])
    ensures DiffInv(r0, base, r, ctx, prev, st.(skip := ctx.cells[col].wide), col + 1)
  {
    assert PairedAt(ctx.cells, col) && CellOk(ctx.profile, ctx.cells[col]);
    if st.erase.None? {
      SkippedIsSettled(ctx.profile, Vis(r)[ctx.row], ctx.cells, prev, col);
    }
    hide Canvas, Shape, Run, CellsOk, Paired, AttrsPaired, EventsOk, SameSetup, OtherRowsKept, AbovePainted, HalfDiffed;
  }

  /** One cell of the diff painter. */
  lemma {:induction false} DiffCellStep(r0: Grid, base: Grid, r: Grid, ctx: RowCtx, prev: Row, st: Painter, col: u16)
    requires TargetRow(ctx) && PrevRowOk(ctx, prev) && NarrowBaseStaysWide(ctx.profile)
    requires DiffInv(r0, base, r, ctx, prev, st, col) && col < |ctx.cells|
    ensures PainterOk(st, |ctx.cells|) && (st.erase.Some? ==> st.erase.value.start <= col)
    ensures var t := DiffCell(ctx, prev, st, col); DiffInv(r0, base, Run(r0, t.out), ctx, prev, t, col + 1)
  {
    FitsDims(r, ctx);
    var cell := ctx.cells[col];
    assert PainterOk(st, |ctx.cells|);
    var t := DiffCell(ctx, prev, st, col);
    if st.skip {
      DiffSkip(r0, base, r, ctx, prev, st, col);
    } else {
      var st1, r1 := st, r;
      if MustFlush(st, cell) {
        st1 := FlushErase(st, ctx.row, Some(col));
        r1 := Run(r0, st1.out);
        DiffFlush(r0, base, r, ctx, prev, st, col, Some(col), st1, r1);
        FlushOut(st, ctx.row, Some(col));
      }
      hide DiffInv, Run, TargetRow, PrevRowOk, NarrowBaseStaysWide, FlushErase, WriteCell, Fits;
      if !(st.repaint || cell != prev[col]) {
        DiffUnchanged(r0, base, r1, ctx, prev, st1, col);
      } else if cell.HasContents() {
        var u := WriteCell(ctx, st1, col).(skip := cell.wide, repaint := NarrowsOnReplay(ctx.profile, cell));
        DiffWrite(r0, base, r1, ctx, prev, st1, col, u, Run(r0, u.out));
      } else {
        DiffBlank(r0, base, r1, ctx, prev, st1, col);
      }
    }
  }

  lemma {:induction false} DiffInvOk(r0: Grid, base: Grid, r: Grid, ctx: RowCtx, prev: Row, st: Painter, col: nat)
    requires DiffInv(r0, base, r, ctx, prev, st, col)
    ensures PainterOk(st, |ctx.cells|) && (st.erase.Some? ==> st.erase.value.start <= col)
        && col <= |ctx.cells| == |prev|
    ensures 1 <= |ctx.cells| <= MAX_COLS && Shape(r0)
  {
    FitsDims(r, ctx);
    hide Shape, Run, Tracks, SameSetup, OtherRowsKept, AbovePainted;
  }

  lemma {:induction false} DiffFromEffect(r0: Grid, base: Grid, r: Grid, ctx: RowCtx, prev: Row, st: Painter, col: nat)
    requires TargetRow(ctx) && PrevRowOk(ctx, prev) && NarrowBaseStaysWide(ctx.profile)
    requires DiffInv(r0, base, r, ctx, prev, st, col)
    ensures PainterOk(st, |ctx.cells|) && (st.erase.Some? ==> st.erase.value.start <= col)
    ensures col <= |ctx.cells| == |prev| && Shape(r0)
    ensures var t := DiffFrom(ctx, prev, st, col); DiffInv(r0, base, Run(r0, t.out), ctx, prev, t, |ctx.cells|)
    decreases |ctx.cells| - col
  {
    hide Run, PrevRowOk, NarrowBaseStaysWide, RowOk, AttrsPaired, Fits, Tracks, SameSetup, OtherRowsKept, AbovePainted,
      HalfDiffed, PainterAt;
    DiffInvOk(r0, base, r, ctx, prev, st, col);
    assert r == Run(r0, st.out);
    hide DiffInv;
    if col < |ctx.cells| {
      DiffCellStep(r0, base, r, ctx, prev, st, col);
      var t := DiffCell(ctx, prev, st, col);
      hide DiffCell, TargetRow;
      DiffFromEffect(r0, base, Run(r0, t.out), ctx, prev, t, col + 1);
    }
  }

  lemma {:induction false} DiffEnd(r0: Grid, base: Grid, r: Grid, ctx: RowCtx, prev: Row, st: Painter)
    requires TargetRow(ctx) && PrevRowOk(ctx, prev) && DiffInv(r0, base, r, ctx, prev, st, |ctx.cells|)
    ensures PainterOk(st, |ctx.cells|)
    ensures var t := FlushErase(st, ctx.row, None); RowPainted(r0, base, Run(r0, t.out), ctx, t)
  {
    FitsDims(r, ctx);
    var t := FlushErase(st, ctx.row, None);
    if st.erase.Some? {
      DiffFlush(r0, base, r, ctx, prev, st, |ctx.cells|, None, t, Run(r0, t.out));
    }
    hide WF, Shape, Run, TargetRow, PrevRowOk, EventsOk, SameSetup, OtherRowsKept, AbovePainted;
  }

  // ---- the start of a row ----

  /** Everything the diff row painter starts from. */
  ghost predicate ReadyForDiff(r0: Grid, r: Grid, ctx: RowCtx, prev: Row, out: seq<Event>, pos: Pos, attrs: Attrs) {
    && Shape(r0) && EventsOk(out) && r == Run(r0, out) && Tracks(r, pos, attrs)
    && Fits(r, ctx) && AbovePainted(r, ctx)
    && RowLooksLike(Vis(r)[ctx.row], prev)
  }

  lemma {:induction false} PlainDiffStart(r0: Grid, base: Grid, r: Grid, ctx: RowCtx, prev: Row, st: Painter)
    requires CtxOk(ctx) && InStep(r0, r, st) && Fits(r, ctx) && AbovePainted(r, ctx)
    requires SameSetup(base, r) && OtherRowsKept(base, r, ctx.row)
    requires |prev| == |ctx.cells| && RowLooksLike(Vis(r)[ctx.row], prev)
    requires st.erase.None? && !st.skip
    ensures DiffInv(r0, base, r, ctx, prev, st, 0)
  {
    hide WF, Shape, Run, EventsOk, SameSetup, OtherRowsKept, AbovePainted;
  }

  /** Jogging over a blank first cell in its own attributes leaves the row looking as it did. */
  lemma {:induction false} JogKeepsLook(p: Profile, row: Row, cells: Row, prev: Row)
    requires RowOk(p, cells) && RowLooksLike(row, prev) && |row| == |cells| >= 1
    requires cells[0] == prev[0] && !cells[0].HasContents()
    ensures !row[0].wide && !row[0].cont
    ensures RowLooksLike(row[0 := BlankCell(cells[0].attrs.background)], prev)
  {
    assert CellOk(p, cells[0]) && PairedAt(cells, 0) && SameLook(row[0], prev[0]);
  }

  lemma {:induction false} DiffStartByJog(r0: Grid, r: Grid, ctx: RowCtx, prev: Row, out: seq<Event>, pos: Pos,
      attrs: Attrs, s: Grid)
    requires TargetRow(ctx) && ReadyForDiff(r0, r, ctx, prev, out, pos, attrs) && |prev| == |ctx.cells|
    requires ctx.cells[0] == prev[0] && !ctx.cells[0].HasContents()
    requires NaturalWrap(ctx, Pos(ctx.row, 0), pos) && !ZwjWrapHazard(ctx.prevRow)
    requires EventsOk(out + AttrsTo(ctx.cells[0].attrs, attrs) + WRAP_JOG)
    requires s == Run(r0, out + AttrsTo(ctx.cells[0].attrs, attrs) + WRAP_JOG)
    ensures Tracks(s, Pos(ctx.row, 0), ctx.cells[0].attrs) && SameSetup(r, s) && OtherRowsKept(r, s, ctx.row)
    ensures ctx.row < |Vis(s)| && RowLooksLike(Vis(s)[ctx.row], prev)
  {
    hide Run, WF, AttrsTo, EventsOk, Shape, CellsOk, Paired, AttrsPaired, LeftPainted, ZwjWrapHazard, RowLooksLike;
    FitsDims(r, ctx);
    var row := Vis(r)[ctx.row];
    var want := ctx.cells[0].attrs;
    JogKeepsLook(ctx.profile, row, ctx.cells, prev);
    RunAttrsTo(r, want);
    Extend(r0, r, out, AttrsTo(want, attrs));
    PenKeepsTracks(r, pos, want);
    var r1 := r.(pen := want);
    PenKeepsFits(r, ctx, want);
    WrapJogEffect(r1, ctx, pos);
    Extend(r0, r1, out + AttrsTo(want, attrs), WRAP_JOG);
    RepaintedVia(r, r1, s, ctx.row, row[0 := BlankCell(want.background)]);
    RepaintedKeepsOthers(r, s, ctx.row, row[0 := BlankCell(want.background)]);
  }

  lemma {:induction false} DiffStartEffect(r0: Grid, r: Grid, ctx: RowCtx, prev: Row, prevWrapping: bool,
      out: seq<Event>, pos: Pos, attrs: Attrs)
    requires TargetRow(ctx) && |prev| == |ctx.cells| && ReadyForDiff(r0, r, ctx, prev, out, pos, attrs)
    ensures var st := DiffStart(ctx, prev, prevWrapping, out, pos, attrs);
            DiffInv(r0, r, Run(r0, st.out), ctx, prev, st, 0)
  {
    hide Run, AttrsTo, EventsOk, WF, CellsOk, Paired, AttrsPaired, ZwjWrapHazard, RowLooksLike, Shape, AbovePainted;
    FitsDims(r, ctx);
    var st := DiffStart(ctx, prev, prevWrapping, out, pos, attrs);
    var s := Run(r0, st.out);
    if WrapRedraw(ctx, prev, prevWrapping, pos) && !ctx.cells[0].HasContents() {
      DiffStartByJog(r0, r, ctx, prev, out, pos, attrs, s);
    }
    InStepShape(r0, s, st);
    FitsKept(r, r, s, ctx);
    PlainDiffStart(r0, r, s, ctx, prev, st);
  }

  /** One diffed row. */
  lemma {:induction false} DiffRowEffect(r0: Grid, r: Grid, ctx: RowCtx, prev: Row, prevWrapping: bool, out: seq<Event>,
      pos: Pos, attrs: Attrs)
    requires TargetRow(ctx) && PrevRowOk(ctx, prev) && NarrowBaseStaysWide(ctx.profile)
    requires ReadyForDiff(r0, r, ctx, prev, out, pos, attrs)
    ensures var t := DiffRow(ctx, prev, prevWrapping, out, pos, attrs); RowPainted(r0, r, Run(r0, t.out), ctx, t)
  {
    hide Run, DiffStart, DiffFrom, DiffInv, WF, NarrowBaseStaysWide, RowOk, AttrsPaired;
    var st := DiffStart(ctx, prev, prevWrapping, out, pos, attrs);
    DiffStartEffect(r0, r, ctx, prev, prevWrapping, out, pos, attrs);
    DiffFromEffect(r0, r, Run(r0, st.out), ctx, prev, st, 0);
    var t := DiffFrom(ctx, prev, st, 0);
    DiffEnd(r0, r, Run(r0, t.out), ctx, prev, t);
  }

  // ---- all rows ----

  /** Rows above `row` look like the target, the others still like the previous state. */
  ghost predicate DiffRowsInv(g: Grid, prev: Grid, r0: Grid, r: Grid, row: nat, out: seq<Event>, pos: Pos,
      attrs: Attrs) {
    && Shape(r0) && EventsOk(out) && r == Run(r0, out) && Tracks(r, pos, attrs)
    && SameCanvas(g, r) && SameCanvas(g, prev) && row <= g.rows && |Vis(g)| == |Vis(r)| == |Vis(prev)| == g.rows
    && (forall i | 0 <= i < row :: RowLooksLike(Vis(r)[i], Vis(g)[i]))
    && (forall i | row <= i < g.rows :: RowLooksLike(Vis(r)[i], Vis(prev)[i]))
  }

  lemma {:induction false} DiffRowsReady(g: Grid, prev: Grid, r0: Grid, r: Grid, row: nat, out: seq<Event>, pos: Pos,
      attrs: Attrs)
    requires Paintable(g) && Paintable(prev) && DiffRowsInv(g, prev, r0, r, row, out, pos, attrs) && row < g.rows
    ensures TargetRow(CtxAt(g, row)) && PrevRowOk(CtxAt(g, row), Vis(prev)[row])
    ensures ReadyForDiff(r0, r, CtxAt(g, row), Vis(prev)[row], out, pos, attrs)
  {
    hide Run, EventsOk, WF, ScreenAttrs, CtxAt, RowLooksLike;
    TargetRowAt(g, row);
    TargetRowAt(prev, row);
    assert Shape(r) by { CanvasShape(r); }
    hide Shape, Canvas;
  }

  lemma {:induction false} CanvasShape(r: Grid)
    requires Canvas(r)
    ensures Shape(r)
  {
  }

  lemma {:induction false} DiffRowsStep(g: Grid, prev: Grid, r0: Grid, r: Grid, row: nat, out: seq<Event>, pos: Pos,
      attrs: Attrs)
    requires Paintable(g) && Paintable(prev) && NarrowBaseStaysWide(g.profile)
    requires DiffRowsInv(g, prev, r0, r, row, out, pos, attrs) && row < g.rows
    ensures var t := DiffRow(CtxAt(g, row), Vis(prev)[row], Continues(prev, row), out, pos, attrs);
            var s := Run(r0, t.out);
            DiffRowsInv(g, prev, r0, s, row + 1, t.out, t.pos, t.attrs) && SameSetup(r, s)
  {
    hide DiffRow, Run, EventsOk, ScreenAttrs, CtxAt, TargetRow, ReadyForDiff, NarrowBaseStaysWide, RowLooksLike,
      ScreenOk;
    assert Shape(g) && Shape(prev);
    hide WF, Shape;
    TargetRowAt(g, row);
    DiffRowsReady(g, prev, r0, r, row, out, pos, attrs);
    DiffRowEffect(r0, r, CtxAt(g, row), Vis(prev)[row], Continues(prev, row), out, pos, attrs);
  }

  lemma {:induction false} DiffRowsEffect(g: Grid, prev: Grid, r0: Grid, r: Grid, row: nat, out: seq<Event>, pos: Pos,
      attrs: Attrs)
    requires Paintable(g) && Paintable(prev) && NarrowBaseStaysWide(g.profile)
    requires DiffRowsInv(g, prev, r0, r, row, out, pos, attrs)
    ensures var t := DiffRows(g, prev, row, out, pos, attrs);
            var s := Run(r0, t.out);
            DiffRowsInv(g, prev, r0, s, g.rows, t.out, t.pos, t.attrs) && SameSetup(r, s)
    decreases g.rows - row
  {
    hide DiffRow, Run, CtxAt, NarrowBaseStaysWide, ScreenOk, ScreenAttrs;
    if row < g.rows {
      DiffRowsStep(g, prev, r0, r, row, out, pos, attrs);
      var t := DiffRow(CtxAt(g, row), Vis(prev)[row], Continues(prev, row), out, pos, attrs);
      hide DiffRowsInv;
      DiffRowsEffect(g, prev, r0, Run(r0, t.out), row + 1, t.out, t.pos, t.attrs);
    }
  }

  // ---- the theorem ----

  /** Painting the diff on a canvas that shows the previous picture. */
  lemma {:induction false} DiffPaintEffect(g: Grid, prev: Grid, r: Grid)
    requires Paintable(g) && Paintable(prev) && NarrowBaseStaysWide(g.profile)
    requires SameCanvas(g, prev) && SameCanvas(g, r) && Canvas(r) && g.modes.alt == prev.modes.alt
    requires PictureEq(r, prev)
    ensures var s := Run(r, DiffPaint(g, prev)); Canvas(s) && SameSetup(r, s) && PictureEq(s, g)
  {
    hide Run, DiffRows, NarrowBaseStaysWide, ScreenOk, ScreenAttrs, RowLooksLike;
    var pos := Pos(prev.row, prev.col);
    assert Run(r, []) == r by { RunNothing(r); }
    assert DiffRowsInv(g, prev, r, r, 0, [], pos, prev.pen);
    hide WF, Shape;
    DiffRowsEffect(g, prev, r, r, 0, [], pos, prev.pen);
    var st := DiffRows(g, prev, 0, [], pos, prev.pen);
    var mid := Run(r, st.out);
    assert RowsLookAlike(Vis(mid), Vis(g));
    hide RowsThenCursor, RowsLookAlike;
    RowsThenCursorEffect(g, r, mid, st);
  }

  lemma {:induction false} RunContentsDiff(r: Grid, g: Grid, prev: Grid)
    requires Paintable(g) && Paintable(prev) && NarrowBaseStaysWide(g.profile)
    requires SameCanvas(g, prev) && HomeRegion(r) && SameCanvas(g, r) && Configured(SettingsOf(r), g)
    requires g.modes.alt == prev.modes.alt ==> PictureEq(r, prev)
    ensures var s := Run(r, ContentsDiff(g, prev)); HomeRegion(s) && StateEq(s, g)
  {
    hide Run, EventsOk, Mode, FullPaint, DiffPaint, AutowrapTail, StateEq, PictureEq, NarrowBaseStaysWide, ScreenOk,
      ScreenAttrs, ScreenShape, MouseModeNumber, MouseEncodingNumber;
    var hide25: seq<Event> := if g.modes.hideCursor != prev.modes.hideCursor then Mode(25, !g.modes.hideCursor) else [];
    var pre := Mode(7, true) + hide25;
    RunPaintPrefix(r, g, hide25);
    var m := Run(r, pre);
    assert DiffPaint(g, prev) == FullPaint(g) || g.modes.alt == prev.modes.alt by { DiffPaintCases(g, prev); }
    if g.modes.alt == prev.modes.alt {
      assert PictureEq(m, prev) by { SamePictureEq(r, m, prev); }
      DiffPaintEffect(g, prev, m);
    } else {
      FullPaintEffect(g, m);
    }
    Sandwich(r, g, pre, DiffPaint(g, prev));
  }

  lemma {:induction false} DiffPaintCases(g: Grid, prev: Grid)
    requires Shape(g) && Shape(prev)
    ensures g.modes.alt != prev.modes.alt ==> DiffPaint(g, prev) == FullPaint(g)
  {
    hide FullPaint, DiffRows, RowsThenCursor, Shape;
  }

  lemma {:induction false} SamePictureEq(r: Grid, m: Grid, g: Grid)
    requires SamePicture(r, m) && PictureEq(r, g)
    ensures PictureEq(m, g)
  {
  }

  lemma {:induction false} StateEqSplits(r: Grid, prev: Grid)
    requires StateEq(r, prev)
    ensures PictureEq(r, prev) && Configured(SettingsOf(r), prev) && r.rows == prev.rows && r.cols == prev.cols
  {
  }

  /**
    * Diff round trip: for all well-formed states `g` and `prev` of one size, replaying `state_diff` on any
    * well-formed whole-region grid that is `state_eq` to `prev` gives a grid that is `state_eq` to `g`.
    */
  lemma {:induction false} DiffRoundTrip(g: Grid, prev: Grid, r: Grid)
    requires Paintable(g) && Paintable(prev) && NarrowBaseStaysWide(g.profile)
    requires g.rows == prev.rows && g.cols == prev.cols && g.profile == prev.profile == r.profile
    requires HomeRegion(r) && StateEq(r, prev)
    ensures var s := Run(r, StateDiff(g, prev)); HomeRegion(s) && StateEq(s, g)
  {
    hide Run, InputModeDiff, ContentsDiff, EventsOk, StateEq, NarrowBaseStaysWide, ScreenOk, ScreenAttrs, ScreenShape,
      PictureEq, MouseModeNumber, MouseEncodingNumber;
    StateEqSplits(r, prev);
    RunInputDiff(r, g, prev);
    var m := Run(r, InputModeDiff(g, prev));
    if g.modes.alt == prev.modes.alt { SamePictureEq(r, m, prev); }
    RunContentsDiff(m, g, prev);
    RunSplit(r, InputModeDiff(g, prev), ContentsDiff(g, prev));
  }
}
