/** What scroll margins guarantee over a run (src/grid/perform.rs): scrolling stays between them. */
module Margins {
  import opened Basics
  import opened GridModel
  import opened Invariant
  import opened Scrolling
  import opened Replay

  /** Line feeds, scrolls, line edits, cursor motion, and events that touch no cell. */
  predicate MovesOnly(e: Event) {
    || e.Control? || e.Cursor? || e.Save? || e.Restore? || e.ReverseLine?
    || e.InsertLines? || e.DeleteLines? || e.ScrollUpBy? || e.ScrollDown? || PlainEvent(e)
  }

  predicate AllMoveOnly(es: seq<Event>) {
    forall i | 0 <= i < |es| :: MovesOnly(es[i])
  }

  predicate Between(g: Grid, r: nat) {
    g.scrollTop <= r <= g.scrollBottom
  }

  /** Margins stay, rows outside them keep their cells, and only a region at the top of the screen feeds scrollback. */
  ghost predicate Confined(g: Grid, h: Grid) {
    && h.rows == g.rows && h.cols == g.cols && h.modes.alt == g.modes.alt
    && h.scrollTop == g.scrollTop && h.scrollBottom == g.scrollBottom
    && |Active(h).cells| == |Active(g).cells|
    && (forall r | 0 <= r < |Active(g).cells| && !Between(g, r) :: Active(h).cells[r] == Active(g).cells[r])
    && (g.scrollTop > 0 ==> h.history.scrollback == g.history.scrollback)
  }

  lemma {:induction false} ScrollUpConfined(g: Grid, count: u16, wrap: RowWrap)
    requires Shape(g)
    ensures Confined(g, ScrollUp(g, count, wrap))
  {
    hide ShiftUp, ScrollUp;
    ScrollUpCells(g, count, wrap);
    var s, n := Active(g), Min(count, g.scrollBottom - g.scrollTop + 1);
    ShiftUpRow(s, g.cols, g.scrollTop, g.scrollBottom, n, wrap, 0);
    forall r | 0 <= r < |s.cells| && !Between(g, r)
      ensures ShiftUp(s, g.cols, g.scrollTop, g.scrollBottom, n, wrap).cells[r] == s.cells[r]
    {
      ShiftUpRow(s, g.cols, g.scrollTop, g.scrollBottom, n, wrap, r);
    }
  }

  lemma {:induction false} NewlineConfined(g: Grid, wrap: RowWrap)
    requires Shape(g)
    ensures Confined(g, Newline(g, wrap))
  {
    hide ScrollUp;
    if g.row == g.scrollBottom { ScrollUpConfined(g, 1, wrap); }
  }

  lemma {:induction false} ShiftDownConfined(g: Grid, top: u16, rows: u16)
    requires Shape(g) && g.scrollTop <= top <= g.scrollBottom && rows <= g.scrollBottom - top + 1
    ensures Confined(g, ShiftActiveDown(g, top, g.scrollBottom, rows))
  {
    hide ShiftDown;
    var s := Active(g);
    ShiftDownRow(s, g.cols, top, g.scrollBottom, rows, 0);
    forall r | 0 <= r < |s.cells| && !Between(g, r)
      ensures ShiftDown(s, g.cols, top, g.scrollBottom, rows).cells[r] == s.cells[r]
    {
      ShiftDownRow(s, g.cols, top, g.scrollBottom, rows, r);
    }
  }

  lemma {:induction false} DeleteLinesConfined(g: Grid, n: u16)
    requires Shape(g)
    ensures Confined(g, DeleteLinesAt(g, n))
  {
    hide ShiftUp;
    if Between(g, g.row) {
      var s, rows := Active(g), Min(Max(n, 1), g.scrollBottom - g.row + 1);
      ShiftUpRow(s, g.cols, g.row, g.scrollBottom, rows, Hard, 0);
      forall r | 0 <= r < |s.cells| && !Between(g, r)
        ensures ShiftUp(s, g.cols, g.row, g.scrollBottom, rows, Hard).cells[r] == s.cells[r]
      {
        ShiftUpRow(s, g.cols, g.row, g.scrollBottom, rows, Hard, r);
      }
    }
  }

  lemma {:induction false} LinesConfined(g: Grid, n: u16)
    requires Shape(g)
    ensures Confined(g, InsertLinesAt(g, n)) && Confined(g, ScrollDownBy(g, n)) && Confined(g, ReverseIndex(g))
  {
    hide ShiftActiveDown, ScreenShape;
    var g1 := ClearPendingWrap(g);
    ShiftDownConfined(g, g.scrollTop, Min(Max(n, 1), g.scrollBottom - g.scrollTop + 1));
    ShiftDownConfined(g1, g1.scrollTop, 1);
    if Between(g, g.row) { ShiftDownConfined(g, g.row, Min(Max(n, 1), g.scrollBottom - g.row + 1)); }
  }

  lemma {:induction false} ControlConfined(g: Grid, byte: u8)
    requires Shape(g)
    ensures Confined(g, Execute(g, byte))
  {
    hide Newline, ScreenShape;
    NewlineConfined(ClearPendingWrap(g), Hard);
  }

  lemma {:induction false} CursorConfined(g: Grid, m: Move)
    requires Shape(g)
    ensures Confined(g, MoveCursor(g, m)) && Confined(g, RestoreSavedCursor(g)) && Confined(g, SaveCursor(g))
  {
    hide RowAfter, ColAfter, ScreenShape;
  }

  lemma {:induction false} PlainConfined(g: Grid, e: Event)
    requires Shape(g) && PlainEvent(e)
    ensures Confined(g, Step(g, e))
  {
    hide Step, ScreenShape;
    PlainFrame(g, e);
  }

  lemma {:induction false} StepConfined(g: Grid, e: Event)
    requires Shape(g) && MovesOnly(e)
    ensures Confined(g, Step(g, e))
  {
    hide Shape, Confined, Execute, MoveCursor, SaveCursor, RestoreSavedCursor, ReverseIndex, InsertLinesAt,
      DeleteLinesAt, ScrollUp, ScrollDownBy;
    if e.Control? {
      ControlConfined(g, e.byte);
    } else if e.Cursor? {
      CursorConfined(g, e.move);
    } else if e.Save? || e.Restore? {
      CursorConfined(g, Up(1));
    } else if e.ScrollUpBy? {
      ScrollUpConfined(g, Max(e.n, 1), Hard);
    } else if e.DeleteLines? {
      DeleteLinesConfined(g, e.n);
    } else if PlainEvent(e) {
      PlainConfined(g, e);
    } else {
      LinesConfined(g, if e.InsertLines? || e.ScrollDown? then e.n else 0);
    }
  }

  lemma {:induction false} RunConfined(g: Grid, es: seq<Event>)
    requires Shape(g) && EventsOk(es) && AllMoveOnly(es)
    ensures Confined(g, Run(g, es))
    decreases |es|
  {
    hide Step, Shape;
    if es != [] {
      StepConfined(g, es[0]);
      RunConfined(Step(g, es[0]), es[1..]);
    }
  }

  lemma {:induction false} RegionFrame(g: Grid, top: u16, bottom: u16)
    requires Shape(g)
    ensures var h := Step(g, Region(top, bottom));
            && h == g.(row := 0, col := 0, pendingWrap := false, lastPrint := None, scrollTop := h.scrollTop,
               scrollBottom := h.scrollBottom)
            && (1 <= top < bottom <= g.rows ==> h.scrollTop == top - 1 && h.scrollBottom == bottom - 1)
  {
    hide ScreenShape;
  }

  /**
    * Margins confine: after DECSTBM names two or more rows of the screen, any run of line feeds, scrolls, line edits
    * and cursor motion leaves the margins and every cell outside them alone, and feeds scrollback only if they start at
    * the top row.
    */
  lemma {:induction false} MarginsConfine(g: Grid, top: u16, bottom: u16, es: seq<Event>)
    requires WF(g) && 1 <= top < bottom <= g.rows && EventsOk(es) && AllMoveOnly(es)
    ensures EventsOk([Region(top, bottom)] + es)
    ensures var s := Run(g, [Region(top, bottom)] + es);
            && s.scrollTop == top - 1 && s.scrollBottom == bottom - 1
            && |Active(s).cells| == g.rows
            && (forall r | 0 <= r < g.rows && !(top - 1 <= r < bottom) :: Active(s).cells[r] == Active(g).cells[r])
            && (top > 1 ==> s.history.scrollback == g.history.scrollback)
  {
    hide Step, Run, ScreenOk, MovesOnly;
    var h := Step(g, Region(top, bottom));
    RegionFrame(g, top, bottom);
    RunConfined(h, es);
    RunOne(g, Region(top, bottom));
    RunSplit(g, [Region(top, bottom)], es);
  }
}
