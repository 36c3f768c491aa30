/** The writers never read a continuation's attributes: they see every pair as if it shared its lead's. */
module NormalForm {
  import opened Basics
  import opened Cells
  import opened Rows
  import opened GridModel
  import opened Invariant
  import opened Serialize

  /** The row with every continuation given the attributes of its lead. */
  function NormRow(row: Row): (r: Row)
    ensures |r| == |row|
  {
    seq(|row|, i requires 0 <= i < |row| => if row[i].cont && i > 0 then row[i].(attrs := row[i - 1].attrs) else row[i])
  }

  function NormRows(rows: seq<Row>): (r: seq<Row>)
    ensures |r| == |rows| && forall i | 0 <= i < |r| :: r[i] == NormRow(rows[i])
  {
    seq(|rows|, i requires 0 <= i < |rows| => NormRow(rows[i]))
  }

  /** The state with every visible pair sharing its lead's attributes. */
  function Norm(g: Grid): Grid {
    WithActive(g, Active(g).(cells := NormRows(Active(g).cells)))
  }

  // ---- the normal form is a well-formed state without glued pairs ----

  lemma {:induction false} NormRowOk(p: Profile, row: Row)
    requires RowOk(p, row)
    ensures RowOk(p, NormRow(row)) && AttrsPaired(NormRow(row))
    ensures NormRow(row) == row <==> AttrsPaired(row)
  {
    var n := NormRow(row);
    forall i | 0 <= i < |n| ensures CellOk(p, n[i]) && PairedAt(n, i) {
      assert CellOk(p, row[i]) && PairedAt(row, i);
    }
    forall i | 0 < i < |n| && n[i].cont ensures n[i].attrs == n[i - 1].attrs {
      assert PairedAt(row, i) && PairedAt(row, i - 1);
    }
    if NormRow(row) != row {
      var i :| 0 <= i < |row| && n[i] != row[i];
      assert row[i].cont && i > 0 && row[i].attrs != row[i - 1].attrs;
    }
  }

  lemma {:induction false} NormRowsOk(p: Profile, rows: seq<Row>)
    requires forall r | 0 <= r < |rows| :: RowOk(p, rows[r])
    ensures forall r | 0 <= r < |rows| :: RowOk(p, NormRows(rows)[r]) && AttrsPaired(NormRows(rows)[r])
    ensures NormRows(rows) == rows <==> forall r | 0 <= r < |rows| :: AttrsPaired(rows[r])
  {
    hide NormRow, RowOk, AttrsPaired;
    forall r | 0 <= r < |rows|
      ensures RowOk(p, NormRows(rows)[r]) && AttrsPaired(NormRows(rows)[r])
      ensures NormRows(rows)[r] == rows[r] <==> AttrsPaired(rows[r])
    {
      NormRowOk(p, rows[r]);
    }
    if NormRows(rows) != rows {
      var r :| 0 <= r < |rows| && NormRows(rows)[r] != rows[r];
    }
  }

  lemma {:induction false} NormIsWF(g: Grid)
    requires WF(g)
    ensures WF(Norm(g)) && ScreenAttrs(Active(Norm(g))) && Active(Norm(g)).cells == NormRows(Active(g).cells)
    ensures Norm(g) == g <==> ScreenAttrs(Active(g))
  {
    hide NormRow, NormRows, RowOk, AttrsPaired;
    NormRowsOk(g.profile, Active(g).cells);
  }

  // ---- a row read through its leads ----

  /** Same cells outside continuations, and continuations in the same places. */
  predicate SameLeads(a: Row, b: Row) {
    && |a| == |b|
    && forall i | 0 <= i < |a| ::
         a[i].cont == b[i].cont && (!a[i].cont ==> a[i] == b[i]) && a[i].contents == b[i].contents
  }

  lemma {:induction false} NormSameLeads(row: Row)
    ensures SameLeads(row, NormRow(row))
  {
  }

  /** Two contexts the writers cannot tell apart. */
  ghost predicate SameCtx(a: RowCtx, b: RowCtx) {
    && a.row == b.row && a.wrapping == b.wrapping && a.profile == b.profile
    && SameLeads(a.cells, b.cells) && Paired(a.cells) && Paired(b.cells)
    && (a.prevRow.None? <==> b.prevRow.None?)
    && (a.prevRow.Some? ==> SameLeads(a.prevRow.value, b.prevRow.value))
  }

  lemma {:induction false} SameHazards(a: RowCtx, b: RowCtx, col: nat)
    requires SameCtx(a, b) && col <= |a.cells|
    ensures ZwjJoinHazard(a.cells, col) == ZwjJoinHazard(b.cells, col)
    ensures ZwjWrapHazard(a.prevRow) == ZwjWrapHazard(b.prevRow)
  {
    hide Paired;
  }

  lemma {:induction false} SameWrite(a: RowCtx, b: RowCtx, st: Painter, col: u16)
    requires SameCtx(a, b) && CtxOk(a) && EventsOk(st.out) && col < |a.cells| && !a.cells[col].cont
    ensures CtxOk(b) && WriteCell(a, st, col) == WriteCell(b, st, col)
  {
    hide Paired, EventsOk, MoveTo, MoveFromTo, AttrsTo, PrintAll, ZwjJoinHazard, ZwjWrapHazard;
    SameHazards(a, b, col);
  }

  lemma {:induction false} SamePaint(a: RowCtx, b: RowCtx, st: Painter, col: u16, paint: bool)
    requires SameCtx(a, b) && CtxOk(a) && PainterOk(st, |a.cells|) && col < |a.cells| && !a.cells[col].cont
    requires st.erase.Some? ==> st.erase.value.start <= col
    ensures CtxOk(b) && PaintCell(a, st, col, paint) == PaintCell(b, st, col, paint)
  {
    hide Paired, EventsOk, FlushErase, WriteCell;
    var st1 := if MustFlush(st, a.cells[col]) then FlushErase(st, a.row, Some(col)) else st;
    SameWrite(a, b, st1, col);
  }

  lemma {:induction false} SkippedOnce(cells: Row, col: nat)
    requires Paired(cells) && col < |cells| && cells[col].cont
    ensures col + 1 < |cells| ==> !cells[col + 1].cont
  {
    assert PairedAt(cells, col);
    if col + 1 < |cells| { assert PairedAt(cells, col + 1); }
  }

  lemma {:induction false} SameFormat(a: RowCtx, b: RowCtx, st: Painter, col: nat)
    requires SameCtx(a, b) && CtxOk(a) && PainterOk(st, |a.cells|) && col <= |a.cells|
    requires st.erase.Some? ==> st.erase.value.start <= col
    requires col < |a.cells| ==> st.skip == a.cells[col].cont
    ensures CtxOk(b) && FormatFrom(a, st, col) == FormatFrom(b, st, col)
    decreases |a.cells| - col
  {
    hide Paired, EventsOk, PaintCell;
    if col < |a.cells| {
      if st.skip {
        SkippedOnce(a.cells, col);
      } else {
        SamePaint(a, b, st, col, a.cells[col] != DEFAULT_CELL);
        PairGoesOn(a.cells, col);
      }
      SameFormat(a, b, FormatCell(a, st, col), col + 1);
    }
  }

  /** After a lead comes its continuation, after a narrow cell comes none. */
  lemma {:induction false} PairGoesOn(cells: Row, col: nat)
    requires Paired(cells) && col < |cells|
    ensures col + 1 < |cells| ==> cells[col].wide == cells[col + 1].cont
  {
    assert PairedAt(cells, col);
    if col + 1 < |cells| { assert PairedAt(cells, col + 1); }
  }

  lemma {:induction false} SameDiff(a: RowCtx, b: RowCtx, prev: Row, prev': Row, st: Painter, col: nat)
    requires SameCtx(a, b) && CtxOk(a) && PainterOk(st, |a.cells|) && col <= |a.cells| == |prev|
    requires SameLeads(prev, prev')
    requires st.erase.Some? ==> st.erase.value.start <= col
    requires col < |a.cells| ==> st.skip == a.cells[col].cont
    ensures CtxOk(b) && DiffFrom(a, prev, st, col) == DiffFrom(b, prev', st, col)
    decreases |a.cells| - col
  {
    hide Paired, EventsOk, PaintCell, NarrowsOnReplay;
    if col < |a.cells| {
      if st.skip {
        SkippedOnce(a.cells, col);
      } else {
        SamePaint(a, b, st, col, st.repaint || a.cells[col] != prev[col]);
        PairGoesOn(a.cells, col);
      }
      SameDiff(a, b, prev, prev', DiffCell(a, prev, st, col), col + 1);
    }
  }

  lemma {:induction false} FirstIsLead(cells: Row)
    requires Paired(cells) && |cells| > 0
    ensures !cells[0].cont
  {
    assert PairedAt(cells, 0);
  }

  lemma {:induction false} SameFormatRow(a: RowCtx, b: RowCtx, out: seq<Event>, pos: Pos, attrs: Attrs)
    requires SameCtx(a, b) && CtxOk(a) && EventsOk(out)
    ensures CtxOk(b) && FormatRow(a, out, pos, attrs) == FormatRow(b, out, pos, attrs)
  {
    hide Paired, EventsOk, FormatFrom, FlushErase, AttrsTo, MoveTo, ZwjWrapHazard;
    FirstIsLead(a.cells);
    SameHazards(a, b, 0);
    var start := FormatStart(a, out, pos, attrs);
    assert FormatStart(b, out, pos, attrs) == start;
    SameFormat(a, b, start, 0);
  }

  lemma {:induction false} SameDiffRow(a: RowCtx, b: RowCtx, prev: Row, prev': Row, wrapping: bool, out: seq<Event>,
      pos: Pos, attrs: Attrs)
    requires SameCtx(a, b) && CtxOk(a) && EventsOk(out) && |a.cells| == |prev| && SameLeads(prev, prev') && Paired(prev)
    ensures CtxOk(b) && DiffRow(a, prev, wrapping, out, pos, attrs) == DiffRow(b, prev', wrapping, out, pos, attrs)
  {
    hide Paired, EventsOk, DiffFrom, FlushErase, AttrsTo, ZwjWrapHazard;
    FirstIsLead(a.cells);
    FirstIsLead(prev);
    SameHazards(a, b, 0);
    var start := DiffStart(a, prev, wrapping, out, pos, attrs);
    assert DiffStart(b, prev', wrapping, out, pos, attrs) == start;
    SameDiff(a, b, prev, prev', start, 0);
  }

  // ---- whole states ----

  lemma {:induction false} RowsAreNormed(g: Grid, row: nat)
    requires WF(g) && row < g.rows
    ensures Shape(Norm(g)) && SameCtx(CtxAt(g, row), CtxAt(Norm(g), row))
    ensures Continues(Norm(g), row) == Continues(g, row)
    ensures SameLeads(Active(g).cells[row], Active(Norm(g)).cells[row]) && Paired(Active(g).cells[row])
  {
    hide NormRow, NormRows, CellsOk, Paired;
    NormIsWF(g);
    assert RowOk(g.profile, Active(g).cells[row]) && RowOk(g.profile, Active(Norm(g)).cells[row]);
    NormSameLeads(Active(g).cells[row]);
    if row > 0 { NormSameLeads(Active(g).cells[row - 1]); }
  }

  lemma {:induction false} SameFormatRows(g: Grid, row: nat, out: seq<Event>, pos: Pos, attrs: Attrs)
    requires WF(g) && row <= g.rows && EventsOk(out)
    ensures Shape(Norm(g)) && Norm(g).rows == g.rows
    ensures FormatRows(g, row, out, pos, attrs) == FormatRows(Norm(g), row, out, pos, attrs)
    decreases g.rows - row
  {
    hide FormatRow, EventsOk, ScreenOk, ScreenShape, NormRows, SameCtx;
    NormIsWF(g);
    if row < g.rows {
      RowsAreNormed(g, row);
      SameFormatRow(CtxAt(g, row), CtxAt(Norm(g), row), out, pos, attrs);
      var st := FormatRow(CtxAt(g, row), out, pos, attrs);
      SameFormatRows(g, row + 1, st.out, st.pos, st.attrs);
    }
  }

  lemma {:induction false} NormDims(g: Grid)
    requires WF(g)
    ensures Shape(g) && Shape(Norm(g)) && Norm(g).rows == g.rows && Norm(g).cols == g.cols
  {
    hide ScreenOk, NormRows;
    NormIsWF(g);
  }

  lemma {:induction false} SameDiffRows(g: Grid, prev: Grid, row: nat, out: seq<Event>, pos: Pos, attrs: Attrs)
    requires WF(g) && WF(prev) && g.rows == prev.rows && g.cols == prev.cols && row <= g.rows && EventsOk(out)
    ensures Shape(Norm(g)) && Shape(Norm(prev)) && Norm(g).rows == g.rows == Norm(prev).rows
        && Norm(g).cols == g.cols == Norm(prev).cols
    ensures DiffRows(g, prev, row, out, pos, attrs) == DiffRows(Norm(g), Norm(prev), row, out, pos, attrs)
    decreases g.rows - row
  {
    hide DiffRow, EventsOk, WF, Shape, Norm, CtxAt, Continues, SameCtx, SameLeads, Paired;
    NormDims(g);
    NormDims(prev);
    if row < g.rows {
      RowsAreNormed(g, row);
      RowsAreNormed(prev, row);
      RowsOf(g, row);
      RowsOf(prev, row);
      RowsOf(Norm(prev), row);
      var was, was' := Active(prev).cells[row], Active(Norm(prev)).cells[row];
      SameDiffRow(CtxAt(g, row), CtxAt(Norm(g), row), was, was', Continues(prev, row), out, pos, attrs);
      var st := DiffRow(CtxAt(g, row), was, Continues(prev, row), out, pos, attrs);
      SameDiffRows(g, prev, row + 1, st.out, st.pos, st.attrs);
    }
  }

  lemma {:induction false} SameCursorTail(g: Grid, st: Painter)
    requires WF(g) && EventsOk(st.out) && g.row < U16_MAX
    ensures Shape(Norm(g)) && RowsThenCursor(g, st) == RowsThenCursor(Norm(g), st)
  {
    hide EventsOk, MoveTo, MoveFromTo, AttrsTo, PrintAll, ScreenOk, NormRows, NormRow;
    NormIsWF(g);
    RowsAreNormed(g, g.row);
    var row := ActiveRow(g);
    assert row == Active(g).cells[g.row];
    assert PairedAt(row, g.cols - 1) && (g.cols >= 2 ==> PairedAt(row, g.cols - 2));
    LeadHasContents(g);
  }

  /** A continuation in the last column belongs to a filled lead. */
  lemma {:induction false} LeadHasContents(g: Grid)
    requires WF(g)
    ensures g.cols >= 2 && ActiveRow(g)[g.cols - 1].cont
        ==> ActiveRow(g)[g.cols - 2].HasContents() && !ActiveRow(g)[g.cols - 2].cont
    ensures g.cols == 1 ==> !ActiveRow(g)[0].cont
  {
    ActiveRowOk(g);
    var row := ActiveRow(g);
    assert PairedAt(row, g.cols - 1);
    if g.cols >= 2 { assert PairedAt(row, g.cols - 2) && CellOk(g.profile, row[g.cols - 2]); }
  }

  /** `state_formatted` cannot tell a state from its normal form. */
  lemma {:induction false} FormattedIgnoresGlue(g: Grid)
    requires WF(g)
    ensures WF(Norm(g)) && StateFormatted(g) == StateFormatted(Norm(g))
  {
    hide FormatRows, RowsThenCursor, EventsOk, ScreenOk, ScreenShape, NormRows, InputModeFormatted;
    NormIsWF(g);
    SameModes(g, g);
    SameFullPaint(g);
  }

  /** All of a state but its visible rows. */
  lemma {:induction false} NormFrame(g: Grid)
    ensures Norm(g) == g.(primary := Norm(g).primary, alternate := Norm(g).alternate)
  {
    hide NormRows;
  }

  lemma {:induction false} SameModes(g: Grid, prev: Grid)
    ensures InputModeFormatted(g) == InputModeFormatted(Norm(g))
        && InputModeDiff(g, prev) == InputModeDiff(Norm(g), Norm(prev))
    ensures AutowrapTail(g) == AutowrapTail(Norm(g)) && Norm(g).modes == g.modes && SizeOf(Norm(g)) == SizeOf(g)
    ensures Norm(g).row == g.row && Norm(g).col == g.col && Norm(g).pen == g.pen && Norm(g).profile == g.profile
  {
    hide Norm, MouseModeTo, MouseEncodingTo, FlagTo, KeypadTo, StyleTo, EventsOk;
    NormFrame(g);
    NormFrame(prev);
  }

  lemma {:induction false} SameFullPaint(g: Grid)
    requires WF(g)
    ensures Shape(Norm(g)) && FullPaint(g) == FullPaint(Norm(g))
  {
    hide FormatRows, RowsThenCursor, EventsOk, ScreenOk, ScreenShape, NormRows;
    assert EventsOk(CLEAR) by { ConstantsOk(); }
    SameFormatRows(g, 0, CLEAR, Pos(0, 0), DEFAULT_ATTRS);
    SameCursorTail(g, FormatRows(g, 0, CLEAR, Pos(0, 0), DEFAULT_ATTRS));
  }

  lemma {:induction false} ConstantsOk()
    ensures EventsOk(CLEAR) && EventsOk([])
  {
  }

  /** Nor can `state_diff`, of either state. */
  lemma {:induction false} DiffIgnoresGlue(g: Grid, prev: Grid)
    requires WF(g) && WF(prev)
    ensures WF(Norm(g)) && WF(Norm(prev)) && StateDiff(g, prev) == StateDiff(Norm(g), Norm(prev))
  {
    hide DiffRows, FullPaint, RowsThenCursor, EventsOk, ScreenOk, ScreenShape, NormRows, InputModeDiff, AutowrapTail;
    NormIsWF(g);
    NormIsWF(prev);
    SameModes(g, prev);
    SameModes(prev, prev);
    SameFullPaint(g);
    if SizeOf(g) == SizeOf(prev) {
      ConstantsOk();
      SameDiffRows(g, prev, 0, [], Pos(prev.row, prev.col), prev.pen);
      SameCursorTail(g, DiffRows(g, prev, 0, [], Pos(prev.row, prev.col), prev.pen));
    }
  }
}
