/** What a diff leaves unsaid, and what state equality means to the writers (src/grid/serialize.rs). */
module QuietDiff {
  import opened Basics
  import opened Cells
  import opened Rows
  import opened GridModel
  import opened Invariant
  import opened Serialize
  import Sgr

  // ---- rows that did not change ----

  /** Nothing pending: no erase run, no cell to repaint. */
  predicate Idle(st: Painter) {
    st.erase.None? && !st.repaint
  }

  /** Columns that did not change pass without a word; the painter stands at `k` as it stood at `col`. */
  lemma {:induction false} EqualCellsAreSilent(ctx: RowCtx, prev: Row, st: Painter, col: nat,
      k: nat) returns (t: Painter)
    requires CtxOk(ctx) && |prev| == |ctx.cells| && PainterOk(st, |ctx.cells|) && Idle(st) && col <= k <= |ctx.cells|
    requires forall j | col <= j < k :: ctx.cells[j] == prev[j]
    ensures t == st.(skip := t.skip) && (col == k ==> t == st)
    ensures PainterOk(t, |ctx.cells|) && DiffFrom(ctx, prev, st, col) == DiffFrom(ctx, prev, t, k)
    ensures Paired(ctx.cells) && (st.skip <==> 0 < col && ctx.cells[col - 1].wide) ==>
              (t.skip <==> 0 < k && ctx.cells[k - 1].wide)
    decreases k - col
  {
    hide WriteCell, FlushErase, MustFlush, Paired;
    t := st;
    if col < k {
      assert MustFlush(st, ctx.cells[col]) == false by { NothingToFlush(st, ctx.cells[col]); }
      var next := DiffCell(ctx, prev, st, col);
      assert next == st.(skip := if st.skip then false else ctx.cells[col].wide);
      if Paired(ctx.cells) && st.skip && 0 < col && ctx.cells[col - 1].wide { LeadsStandApart(ctx.cells, col); }
      t := EqualCellsAreSilent(ctx, prev, next, col + 1, k);
    }
  }

  lemma {:induction false} LeadsStandApart(row: Row, col: nat)
    requires Paired(row) && 0 < col < |row| && row[col - 1].wide
    ensures !row[col].wide
  {
    assert PairedAt(row, col - 1) && PairedAt(row, col);
  }

  lemma {:induction false} NothingToFlush(st: Painter, cell: Cell)
    requires st.erase.None?
    ensures !MustFlush(st, cell)
  {
  }

  /** A row that did not change, and did not become the continuation of the one above, is not written at all. */
  lemma {:induction false} UnchangedRowIsSilent(ctx: RowCtx, prevWrapping: bool, out: seq<Event>, pos: Pos,
      attrs: Attrs)
    requires CtxOk(ctx) && EventsOk(out) && (ctx.wrapping ==> prevWrapping)
    ensures var st := DiffRow(ctx, ctx.cells, prevWrapping, out, pos, attrs);
            st.out == out && st.pos == pos && st.attrs == attrs
  {
    var t := EqualCellsAreSilent(ctx, ctx.cells, Painter(out, pos, attrs, None, false, false), 0, |ctx.cells|);
    assert DiffFrom(ctx, ctx.cells, t, |ctx.cells|) == t;
    hide DiffFrom;
  }

  /** Only the glyph at `c` changed, its second half included. */
  predicate OnlyChange(row: Row, prev: Row, c: nat) {
    && |prev| == |row| && c < |row| && row[c] != prev[c] && !row[c].cont
    && forall j | 0 <= j < |row| && j != c && !(j == c + 1 && row[c].wide) :: row[j] == prev[j]
  }

  /**
    * A row in which one glyph changed costs one move, one pen change and the characters of that glyph, provided the row
    * did not become a continuation and the glyph does not narrow as it is printed.
    */
  lemma {:induction false} OneChangeOneGlyph(ctx: RowCtx, prev: Row, prevWrapping: bool, out: seq<Event>, pos: Pos,
      attrs: Attrs, c: nat)
    requires CtxOk(ctx) && EventsOk(out) && (ctx.wrapping ==> prevWrapping) && Paired(ctx.cells)
    requires OnlyChange(ctx.cells, prev, c) && ctx.cells[c].HasContents() && !NarrowsOnReplay(ctx.profile, ctx.cells[c])
    ensures var cell := ctx.cells[c];
            DiffRow(ctx, prev, prevWrapping, out, pos, attrs).out
              == out + ContentMove(ctx, Pos(ctx.row, c), pos) + AttrsTo(cell.attrs, attrs) + PrintAll(cell.contents)
  {
    hide DiffFrom, ContentMove, AttrsTo, PrintAll, NarrowsOnReplay, Paired;
    var st := Painter(out, pos, attrs, None, false, false);
    var t := EqualCellsAreSilent(ctx, prev, st, 0, c);
    assert !(0 < c && ctx.cells[c - 1].wide) by { NotSecondHalf(ctx.cells, c); }
    var u := DiffCell(ctx, prev, t, c);
    assert u == WriteCell(ctx, t, c).(skip := ctx.cells[c].wide, repaint := false);
    DiffOnce(ctx, prev, t, c);
    var v, k := u, c + 1;
    if ctx.cells[c].wide && c + 1 < |prev| {
      v, k := u.(skip := false), c + 2;
      DiffOnce(ctx, prev, u, c + 1);
    }
    var w := EqualCellsAreSilent(ctx, prev, v, k, |prev|);
    DiffDone(ctx, prev, w);
  }

  lemma {:induction false} NotSecondHalf(row: Row, c: nat)
    requires Paired(row) && c < |row| && !row[c].cont
    ensures !(0 < c && row[c - 1].wide)
  {
    if 0 < c { assert PairedAt(row, c - 1); }
  }

  lemma {:induction false} DiffOnce(ctx: RowCtx, prev: Row, st: Painter, col: nat)
    requires CtxOk(ctx) && PainterOk(st, |ctx.cells|) && col < |ctx.cells| == |prev|
    requires st.erase.Some? ==> st.erase.value.start <= col
    ensures DiffFrom(ctx, prev, st, col) == DiffFrom(ctx, prev, DiffCell(ctx, prev, st, col), col + 1)
  {
  }

  lemma {:induction false} DiffDone(ctx: RowCtx, prev: Row, st: Painter)
    requires CtxOk(ctx) && PainterOk(st, |ctx.cells|) && |ctx.cells| == |prev|
    requires st.erase.Some? ==> st.erase.value.start <= |prev|
    ensures DiffFrom(ctx, prev, st, |prev|) == st
  {
  }

  /** Rows from `row` on show the same and continue the same in both grids. */
  predicate SameRowsFrom(g: Grid, prev: Grid, row: nat)
    requires Shape(g) && Shape(prev) && g.rows == prev.rows && g.cols == prev.cols
  {
    forall r | row <= r < g.rows ::
      Active(g).cells[r] == Active(prev).cells[r] && Continues(g, r) == Continues(prev, r)
  }

  lemma {:induction false} UnchangedRowsAreSilent(g: Grid, prev: Grid, row: nat, out: seq<Event>, pos: Pos,
      attrs: Attrs)
    requires Shape(g) && Shape(prev) && g.rows == prev.rows && g.cols == prev.cols
    requires row <= g.rows && EventsOk(out) && SameRowsFrom(g, prev, row)
    ensures DiffRows(g, prev, row, out, pos, attrs) == Painter(out, pos, attrs, None, false, false)
    decreases g.rows - row
  {
    hide DiffRow, ScreenShape;
    if row < g.rows {
      UnchangedRowIsSilent(CtxAt(g, row), Continues(prev, row), out, pos, attrs);
      UnchangedRowsAreSilent(g, prev, row + 1, out, pos, attrs);
    }
  }

  lemma {:induction false} NoPenChange(a: Attrs)
    ensures AttrsTo(a, a) == []
  {
    hide Sgr.ChangedParams;
  }

  /** Rows, cursor, pen, modes and style are the same. */
  ghost predicate SameState(g: Grid, prev: Grid)
    requires Shape(g) && Shape(prev)
  {
    && g.rows == prev.rows && g.cols == prev.cols && SameRowsFrom(g, prev, 0)
    && g.row == prev.row && g.col == prev.col && g.pen == prev.pen && g.modes == prev.modes
    && g.mouseMode == prev.mouseMode && g.mouseEncoding == prev.mouseEncoding && g.cursorStyle == prev.cursorStyle
  }

  lemma {:induction false} SamePaintIsSilent(g: Grid, prev: Grid)
    requires WF(g) && WF(prev) && SameState(g, prev)
    ensures DiffPaint(g, prev) == []
  {
    hide DiffRows, FullPaint, AttrsTo, ScreenOk, ScreenShape;
    UnchangedRowsAreSilent(g, prev, 0, [], Pos(prev.row, prev.col), prev.pen);
    NoPenChange(g.pen);
    RowsOf(g, g.row);
  }

  /**
    * The diff between two states that show the same writes no cell, moves no cursor and sets no pen: it is the pair of
    * autowrap settings that frames every diff.
    */
  lemma {:induction false} SameStatesDiffQuietly(g: Grid, prev: Grid)
    requires WF(g) && WF(prev) && SameState(g, prev)
    ensures StateDiff(g, prev)
         == [PrivateModes([7], true)] + if g.modes.noAutowrap then [PrivateModes([7], false)] else []
  {
    hide DiffPaint, ScreenOk, ScreenShape;
    SamePaintIsSilent(g, prev);
    assert InputModeDiff(g, prev) == [];
  }

  // ---- state equality ----

  /** The same rows to look at, continuing each other in the same places. */
  ghost predicate SameContext(a: RowCtx, b: RowCtx) {
    && RowLooksLike(a.cells, b.cells) && a.row == b.row && a.wrapping == b.wrapping && a.profile == b.profile
    && (a.prevRow.Some? <==> b.prevRow.Some?)
    && (a.prevRow.Some? ==> RowLooksLike(a.prevRow.value, b.prevRow.value))
  }

  lemma {:induction false} SameBlanks(p: Profile, a: Cell, b: Cell)
    requires CellOk(p, a) && CellOk(p, b) && SameLook(a, b)
    ensures a == DEFAULT_CELL <==> b == DEFAULT_CELL
  {
  }

  lemma {:induction false} SameHazards(a: RowCtx, b: RowCtx, col: nat)
    requires CtxOk(a) && CtxOk(b) && SameContext(a, b) && col <= |a.cells|
    ensures ZwjJoinHazard(a.cells, col) == ZwjJoinHazard(b.cells, col)
    ensures ZwjWrapHazard(a.prevRow) == ZwjWrapHazard(b.prevRow)
  {
  }

  lemma {:induction false} SameWrite(a: RowCtx, b: RowCtx, st: Painter, col: u16)
    requires CtxOk(a) && CtxOk(b) && SameContext(a, b) && EventsOk(st.out) && col < |a.cells|
    ensures WriteCell(a, st, col) == WriteCell(b, st, col)
  {
    hide AttrsTo, PrintAll, MoveTo, MoveFromTo, ZwjJoinHazard, ZwjWrapHazard;
    SameHazards(a, b, col);
    assert SameLook(a.cells[col], b.cells[col]);
    assert |a.cells| == |b.cells|;
  }

  lemma {:induction false} SameFormat(a: RowCtx, b: RowCtx, st: Painter, col: nat)
    requires CtxOk(a) && CtxOk(b) && SameContext(a, b) && CellsOk(a.profile, a.cells) && CellsOk(a.profile, b.cells)
    requires PainterOk(st, |a.cells|) && col <= |a.cells| && (st.erase.Some? ==> st.erase.value.start <= col)
    ensures FormatFrom(a, st, col) == FormatFrom(b, st, col)
    decreases |a.cells| - col
  {
    hide WriteCell, FlushErase, CellOk;
    assert |a.cells| == |b.cells|;
    if col < |a.cells| {
      assert SameLook(a.cells[col], b.cells[col]);
      SameBlanks(a.profile, a.cells[col], b.cells[col]);
      var st1 := if MustFlush(st, a.cells[col]) then FlushErase(st, a.row, Some(col)) else st;
      SameWrite(a, b, st1, col);
      assert FormatCell(a, st, col) == FormatCell(b, st, col);
      SameFormat(a, b, FormatCell(a, st, col), col + 1);
    }
  }

  lemma {:induction false} SameRowFormat(a: RowCtx, b: RowCtx, out: seq<Event>, pos: Pos, attrs: Attrs)
    requires CtxOk(a) && CtxOk(b) && SameContext(a, b) && CellsOk(a.profile, a.cells) && CellsOk(a.profile, b.cells)
    requires EventsOk(out)
    ensures FormatRow(a, out, pos, attrs) == FormatRow(b, out, pos, attrs)
  {
    hide FormatFrom, FlushErase, AttrsTo, MoveTo, ZwjWrapHazard, ZwjJoinHazard, CellOk;
    SameHazards(a, b, 0);
    assert SameLook(a.cells[0], b.cells[0]);
    SameBlanks(a.profile, a.cells[0], b.cells[0]);
    SameFormat(a, b, FormatStart(a, out, pos, attrs), 0);
  }

  lemma {:induction false} SameRowsFormat(g: Grid, h: Grid, row: nat, out: seq<Event>, pos: Pos, attrs: Attrs)
    requires WF(g) && WF(h) && StateEq(g, h) && h.profile == g.profile && Active(g).wraps == Active(h).wraps
    requires row <= g.rows && EventsOk(out)
    ensures FormatRows(g, row, out, pos, attrs) == FormatRows(h, row, out, pos, attrs)
    decreases g.rows - row
  {
    hide FormatRow, CellOk;
    if row < g.rows {
      assert RowLooksLike(Active(g).cells[row], Active(h).cells[row]);
      assert RowOk(g.profile, Active(g).cells[row]) && RowOk(g.profile, Active(h).cells[row]);
      SameRowFormat(CtxAt(g, row), CtxAt(h, row), out, pos, attrs);
      var st := FormatRow(CtxAt(g, row), out, pos, attrs);
      SameRowsFormat(g, h, row + 1, st.out, st.pos, st.attrs);
    }
  }

  lemma {:induction false} SameCursorTail(g: Grid, h: Grid, pos: Pos, attrs: Attrs)
    requires WF(g) && WF(h) && StateEq(g, h)
    ensures CursorRestore(Active(g).cells, Pos(g.row, g.col), g.cols, pos, attrs)
         == CursorRestore(Active(h).cells, Pos(h.row, h.col), h.cols, pos, attrs)
  {
    hide RedrawLast, JogLast, MoveFromTo, ScreenOk;
    var a, b := Active(g).cells[g.row], Active(h).cells[g.row];
    assert RowLooksLike(a, b);
    assert forall c | 0 <= c < g.cols :: SameLook(a[c], b[c]);
    SameRedraw(g.row, g.cols, a, b, attrs);
  }

  lemma {:induction false} SameRedraw(row: u16, cols: u16, a: Row, b: Row, attrs: Attrs)
    requires |a| == |b| == cols && row < U16_MAX && cols <= MAX_COLS && RowLooksLike(a, b)
    ensures forall c: u16 | c < cols ::
      RedrawLast(row, c, a[c], attrs) == RedrawLast(row, c, b[c], attrs)
      && JogLast(row, c, a[c], attrs) == JogLast(row, c, b[c], attrs)
  {
    hide AttrsTo, PrintAll, MoveTo;
    assert forall c | 0 <= c < cols :: SameLook(a[c], b[c]);
  }

  /**
    * State equality is what the writers see: two well-formed grids of one profile that are equal states, whose rows
    * continue each other alike, have the same full serialization, event for event.
    */
  lemma {:induction false} EqualStatesFormatAlike(g: Grid, h: Grid)
    requires WF(g) && WF(h) && StateEq(g, h) && h.profile == g.profile && Active(g).wraps == Active(h).wraps
    ensures StateFormatted(g) == StateFormatted(h)
  {
    hide FormatRows, CursorRestore, AttrsTo, ScreenOk, ScreenShape, RowsLookAlike;
    SameRowsFormat(g, h, 0, CLEAR, Pos(0, 0), DEFAULT_ATTRS);
    var st := FormatRows(g, 0, CLEAR, Pos(0, 0), DEFAULT_ATTRS);
    SameCursorTail(g, h, st.pos, st.attrs);
    assert FullPaint(g) == FullPaint(h);
  }
}
