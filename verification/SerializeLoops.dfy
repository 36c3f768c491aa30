/** The serializer's writers as they run (src/grid/serialize.rs): an output that grows, a tracked cursor and pen. */
module SerializeLoops {
  import opened Basics
  import opened Cells
  import opened Rows
  import opened GridModel
  import opened Invariant
  import opened Serialize
  import Sgr

  /** The output vector with the `prev_pos` and `prev_attrs` the writers thread through. */
  class Writer {
    var out: seq<Event>
    var pos: Pos
    var attrs: Attrs

    ghost function Painting(erase: Option<EraseRun>, skip: bool, repaint: bool): Painter
      reads this
    {
      Painter(out, pos, attrs, erase, skip, repaint)
    }

    constructor (pos: Pos, attrs: Attrs)
      ensures out == [] && this.pos == pos && this.attrs == attrs
    {
      out, this.pos, this.attrs := [], pos, attrs;
    }

    method SwitchAttrs(target: Attrs)
      requires EventsOk(out)
      modifies this`out, this`attrs
      ensures EventsOk(out) && out == old(out) + AttrsTo(target, old(attrs)) && attrs == target
    {
      hide EventsOk, Sgr.AttrsDiff;
      SameAttrsNothing(target);
      assert out + [] == out;
      if attrs != target {
        out := out + AttrsTo(target, attrs);
        attrs := target;
      }
      assert EventsOk(out) by { ConcatOk(old(out), AttrsTo(target, old(attrs))); }
    }

    /** `flush_erase_run`. */
    method FlushEraseRun(erase: Option<EraseRun>, row: u16, end: Option<u16>)
      requires EventsOk(out) && row < U16_MAX
      requires erase.Some? ==> erase.value.start < U16_MAX && (end.Some? ==> erase.value.start <= end.value)
      modifies this
      ensures EventsOk(out)
      ensures forall skip, repaint ::
          Painting(None, skip, repaint) == FlushErase(old(Painting(erase, skip, repaint)), row, end)
    {
      hide EventsOk, MoveFromTo, AttrsTo, EraseCount;
      if erase.None? {
        return;
      }
      var run := erase.value;
      var to := Pos(row, run.start);
      var move := MoveFromTo(pos, to);
      ConcatOk(out, move);
      out := out + move;
      pos := to;
      SwitchAttrs(run.attrs);
      var tail: seq<Event>;
      if end.Some? {
        tail := EraseCount(end.value - run.start);
      } else {
        tail := [EraseInLine(0)];
        assert EventsOk(tail) by { OneOk(EraseInLine(0)); }
      }
      ConcatOk(out, tail);
      out := out + tail;
    }

    /** Move, switch the pen, print, advance. */
    method WriteContentCell(ctx: RowCtx, col: u16)
      requires CtxOk(ctx) && EventsOk(out) && col < |ctx.cells|
      modifies this
      ensures EventsOk(out)
      ensures forall erase, skip, repaint ::
          Painting(erase, skip, repaint) == WriteCell(ctx, old(Painting(erase, skip, repaint)), col)
    {
      hide EventsOk, ContentMove, AttrsTo, PrintAll;
      var cell := ctx.cells[col];
      var to := Pos(ctx.row, col);
      var move := ContentMove(ctx, to, pos);
      ConcatOk(out, move);
      out := out + move;
      SwitchAttrs(cell.attrs);
      var width := if cell.wide then 1 else 0;
      ConcatOk(out, PrintAll(cell.contents));
      out := out + PrintAll(cell.contents);
      pos := Pos(ctx.row, Min(col + 1 + width, |ctx.cells|));
    }

    /** The blank first cell of a soft-wrapped row: jog into it, or move there. */
    method OpenRow(ctx: RowCtx)
      requires CtxOk(ctx) && EventsOk(out)
      modifies this
      ensures EventsOk(out) && Painting(None, false, false) == FormatStart(ctx, old(out), old(pos), old(attrs))
    {
      hide EventsOk, AttrsTo, MoveTo;
      if ctx.wrapping && ctx.cells[0] == DEFAULT_CELL {
        if pos.row + 1 == ctx.row && pos.col >= |ctx.cells| && !ZwjWrapHazard(ctx.prevRow) {
          SwitchAttrs(DEFAULT_ATTRS);
          ConcatOk(out, WRAP_JOG) by { JogOk(); }
          out := out + WRAP_JOG;
          pos := Pos(ctx.row, 0);
        } else {
          ConcatOk(out, MoveTo(Pos(ctx.row, 0)));
          out := out + MoveTo(Pos(ctx.row, 0));
          pos := Pos(ctx.row, 0);
        }
      }
    }

    /** `write_row_formatted`. */
    method WriteRowFormatted(ctx: RowCtx)
      requires CtxOk(ctx) && EventsOk(out)
      modifies this
      ensures EventsOk(out)
      ensures var st := FormatRow(ctx, old(out), old(pos), old(attrs));
              out == st.out && pos == st.pos && attrs == st.attrs
    {
      hide EventsOk, FormatStart, FlushErase, WriteCell;
      OpenRow(ctx);
      ghost var start := Painting(None, false, false);
      var erase: Option<EraseRun>, skip := None, false;
      var col := 0;
      while col < |ctx.cells|
        invariant 0 <= col <= |ctx.cells| && EventsOk(out)
        invariant erase.Some? ==> erase.value.start < |ctx.cells| && erase.value.start <= col
        invariant FormatFrom(ctx, Painting(erase, skip, false), col) == FormatFrom(ctx, start, 0)
      {
        if skip {
          skip := false;
        } else {
          erase := PaintOne(ctx, erase, skip, false, col, ctx.cells[col] != DEFAULT_CELL);
          skip := ctx.cells[col].wide;
        }
        col := col + 1;
      }
      FlushEraseRun(erase, ctx.row, None);
      assert Painting(None, skip, false) == FlushErase(FormatFrom(ctx, start, 0), ctx.row, None);
    }

    /** One cell: flush a pending run that ends here, then write, open a run, or leave the cell alone. */
    method PaintOne(ctx: RowCtx, erase: Option<EraseRun>, skip: bool, repaint: bool, col: u16, paint: bool)
      returns (erase': Option<EraseRun>)
      requires CtxOk(ctx) && EventsOk(out) && col < |ctx.cells|
      requires erase.Some? ==> erase.value.start < |ctx.cells| && erase.value.start <= col
      modifies this
      ensures EventsOk(out) && (erase'.Some? ==> erase'.value.start < |ctx.cells| && erase'.value.start <= col)
      ensures Painting(erase', skip, repaint) == PaintCell(ctx, old(Painting(erase, skip, repaint)), col, paint)
    {
      hide EventsOk, FlushErase, WriteCell;
      var cell := ctx.cells[col];
      erase' := erase;
      if erase.Some? && (cell.HasContents() || cell.attrs != erase.value.attrs) {
        FlushEraseRun(erase, ctx.row, Some(col));
        erase' := None;
        assert Painting(erase', skip, repaint) == FlushErase(old(Painting(erase, skip, repaint)), ctx.row, Some(col));
      }
      if paint {
        if cell.HasContents() {
          ghost var st := Painting(erase', skip, repaint);
          WriteContentCell(ctx, col);
          assert Painting(erase', skip, repaint) == WriteCell(ctx, st, col);
        } else if erase'.None? {
          erase' := Some(EraseRun(col, cell.attrs));
        }
      }
    }

    /** `write_row_diff`. */
    method WriteRowDiff(ctx: RowCtx, prev: Row, prevWrapping: bool)
      requires CtxOk(ctx) && EventsOk(out) && |ctx.cells| == |prev|
      modifies this
      ensures EventsOk(out)
      ensures var st := DiffRow(ctx, prev, prevWrapping, old(out), old(pos), old(attrs));
              out == st.out && pos == st.pos && attrs == st.attrs
    {
      hide EventsOk, DiffStart, FlushErase, WriteCell;
      var repaint := OpenRowDiff(ctx, prev, prevWrapping);
      ghost var start := Painting(None, false, repaint);
      var erase: Option<EraseRun>, skip := None, false;
      var col := 0;
      while col < |ctx.cells|
        invariant 0 <= col <= |ctx.cells| && EventsOk(out)
        invariant erase.Some? ==> erase.value.start < |ctx.cells| && erase.value.start <= col
        invariant DiffFrom(ctx, prev, Painting(erase, skip, repaint), col) == DiffFrom(ctx, prev, start, 0)
      {
        if skip {
          skip := false;
        } else {
          var cell := ctx.cells[col];
          var paint := repaint || cell != prev[col];
          erase := PaintOne(ctx, erase, skip, repaint, col, paint);
          skip := cell.wide;
          repaint := paint && cell.HasContents() && NarrowsOnReplay(ctx.profile, cell);
        }
        col := col + 1;
      }
      FlushEraseRun(erase, ctx.row, None);
      assert Painting(None, skip, repaint) == FlushErase(DiffFrom(ctx, prev, start, 0), ctx.row, None);
    }

    /** Redraw or jog over the first cell when only the wrap flag changed. */
    method OpenRowDiff(ctx: RowCtx, prev: Row, prevWrapping: bool) returns (repaint: bool)
      requires CtxOk(ctx) && EventsOk(out) && |ctx.cells| == |prev|
      modifies this
      ensures EventsOk(out)
      ensures Painting(None, false, repaint) == DiffStart(ctx, prev, prevWrapping, old(out), old(pos), old(attrs))
    {
      hide EventsOk, AttrsTo;
      var first := ctx.cells[0];
      var redraw := ctx.wrapping && !prevWrapping && first == prev[0]
        && pos.row + 1 == ctx.row && pos.col >= |ctx.cells| && !ZwjWrapHazard(ctx.prevRow);
      repaint := redraw && first.HasContents();
      if redraw && !first.HasContents() {
        SwitchAttrs(first.attrs);
        ConcatOk(out, WRAP_JOG) by { JogOk(); }
        out := out + WRAP_JOG;
        pos := Pos(ctx.row, 0);
      }
    }

    /** The row loop of `write_contents_full_paint`. */
    method WriteRowsFormatted(g: Grid)
      requires Shape(g) && EventsOk(out)
      modifies this
      ensures EventsOk(out)
      ensures var st := FormatRows(g, 0, old(out), old(pos), old(attrs));
              out == st.out && pos == st.pos && attrs == st.attrs
    {
      hide EventsOk, Shape, FormatRow;
      var row := 0;
      while row < g.rows
        invariant 0 <= row <= g.rows && EventsOk(out)
        invariant FormatRows(g, row, out, pos, attrs) == FormatRows(g, 0, old(out), old(pos), old(attrs))
      {
        WriteRowFormatted(CtxAt(g, row));
        row := row + 1;
      }
    }

    /** The row loop of `write_contents_diff`. */
    method WriteRowsDiff(g: Grid, prev: Grid)
      requires Shape(g) && Shape(prev) && g.rows == prev.rows && g.cols == prev.cols && EventsOk(out)
      modifies this
      ensures EventsOk(out)
      ensures var st := DiffRows(g, prev, 0, old(out), old(pos), old(attrs));
              out == st.out && pos == st.pos && attrs == st.attrs
    {
      hide EventsOk, DiffRow, ScreenShape;
      var row := 0;
      while row < g.rows
        invariant 0 <= row <= g.rows && EventsOk(out)
        invariant DiffRows(g, prev, row, out, pos, attrs) == DiffRows(g, prev, 0, old(out), old(pos), old(attrs))
      {
        assert row < |Active(prev).cells| && |Active(prev).cells[row]| == g.cols by { RowsOf(prev, row); }
        WriteRowDiff(CtxAt(g, row), Active(prev).cells[row], Continues(prev, row));
        row := row + 1;
      }
    }

    /** Append to the output. */
    method Emit(es: seq<Event>)
      requires EventsOk(out) && EventsOk(es)
      modifies this`out
      ensures EventsOk(out) && out == old(out) + es
    {
      hide EventsOk;
      ConcatOk(out, es);
      out := out + es;
    }
  }

  /** `write_contents_full_paint`. */
  method WriteFullPaint(g: Grid) returns (es: seq<Event>)
    requires Shape(g)
    ensures es == FullPaint(g)
  {
    hide EventsOk, FormatRows, CursorRestore, AttrsTo, ScreenShape;
    var w := new Writer(Pos(0, 0), DEFAULT_ATTRS);
    assert EventsOk(w.out) by { NoneOk(); }
    assert EventsOk(CLEAR) by { ClearOk(); }
    w.Emit(CLEAR);
    assert w.out == CLEAR;
    w.WriteRowsFormatted(g);
    assert g.row < |Active(g).cells| && |Active(g).cells[g.row]| == g.cols by { RowsOf(g, g.row); }
    es := w.out + CursorRestore(Active(g).cells, Pos(g.row, g.col), g.cols, w.pos, w.attrs) + AttrsTo(g.pen, w.attrs);
  }

  /** `write_contents_diff` between states of one size and screen. */
  method WriteDiffPaint(g: Grid, prev: Grid) returns (es: seq<Event>)
    requires Shape(g) && Shape(prev)
    ensures es == DiffPaint(g, prev)
  {
    hide EventsOk, FullPaint, DiffRows, CursorRestore, AttrsTo, ScreenShape;
    if SizeOf(g) != SizeOf(prev) || g.modes.alt != prev.modes.alt {
      es := WriteFullPaint(g);
      return;
    }
    var w := new Writer(Pos(prev.row, prev.col), prev.pen);
    assert EventsOk(w.out) by { NoneOk(); }
    w.WriteRowsDiff(g, prev);
    assert g.row < |Active(g).cells| && |Active(g).cells[g.row]| == g.cols by { RowsOf(g, g.row); }
    es := w.out + CursorRestore(Active(g).cells, Pos(g.row, g.col), g.cols, w.pos, w.attrs) + AttrsTo(g.pen, w.attrs);
  }

  // ---- facts about outputs ----

  lemma {:induction false} ConcatOk(a: seq<Event>, b: seq<Event>)
    requires EventsOk(a) && EventsOk(b)
    ensures EventsOk(a + b)
  {
  }

  lemma {:induction false} OneOk(e: Event)
    requires EventOk(e)
    ensures EventsOk([e])
  {
  }

  lemma {:induction false} NoneOk()
    ensures EventsOk([])
  {
  }

  lemma {:induction false} JogOk()
    ensures EventsOk(WRAP_JOG)
  {
  }

  lemma {:induction false} ClearOk()
    ensures EventsOk(CLEAR)
  {
  }

  lemma {:induction false} SameAttrsNothing(a: Attrs)
    ensures AttrsTo(a, a) == []
  {
  }
}
