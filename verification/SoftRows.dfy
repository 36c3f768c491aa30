/** Where soft rows come from, over whole runs (src/grid.rs): from deferred wraps, and from nothing else. */
module SoftRows {
  import opened Basics
  import opened Rows
  import opened Damage
  import opened GridModel
  import opened Invariant
  import opened Erasing
  import opened Scrolling
  import opened DeferredWrap
  import opened Resizing
  import opened Editing
  import opened Clearing
  import opened Provenance
  import opened AltScreen

  predicate HardRows(s: Screen) {
    forall r | 0 <= r < |s.wraps| :: s.wraps[r] == Hard
  }

  /** No row of either screen or of the scrollback is soft. */
  predicate AllHard(g: Grid) {
    HardRows(g.primary) && HardRows(g.alternate) && HardRows(g.history.scrollback)
  }

  /** No printable of the run takes a deferred wrap. */
  predicate NeverWraps(g: Grid, es: seq<Event>)
    requires Shape(g) && EventsOk(es)
    decreases |es|
  {
    es == [] || (!(es[0].Print? && TakesWrap(g, es[0].ch)) && NeverWraps(Step(g, es[0]), es[1..]))
  }

  lemma {:induction false} HardFromActive(g: Grid, h: Grid)
    requires HardRows(Active(h)) && HardRows(Inactive(h)) && HardRows(h.history.scrollback)
    ensures AllHard(h)
  {
  }

  lemma {:induction false} RowBelowStaysHard(g: Grid, r: nat)
    requires Shape(g) && AllHard(g) && r < g.rows
    ensures FlagBelow(g, r, Hard) == Hard
  {
  }

  lemma {:induction false} BelowStaysHard(g: Grid)
    requires Shape(g) && AllHard(g)
    ensures HardRows(ScrollbackBelow(g))
  {
  }

  lemma {:induction false} DownStaysHard(g: Grid, h: Grid)
    requires Shape(g) && Shape(h) && WentDown(g, h, Hard, -1) && AllHard(g)
    ensures AllHard(h)
  {
    hide BlankRow, CellsBelow, FlagBelow, ScrollbackBelow;
    BelowStaysHard(g);
    forall r | 0 <= r < |Active(h).wraps| ensures Active(h).wraps[r] == Hard {
      RowBelowStaysHard(g, r);
      assert Active(h).wraps[r] == FlagBelow(g, r, Hard);
    }
    HardFromActive(g, h);
  }

  lemma {:induction false} TextStaysHard(g: Grid, e: Event)
    requires WF(g) && AllHard(g) && (e.Print? || e.Control?) && !(e.Print? && TakesWrap(g, e.ch))
    ensures AllHard(Step(g, e))
  {
    hide Step, ScreenOk, ScreenShape, Absorbed, Extended, Landed, WentDown, Suppressed;
    if e.Print? {
      PrintStays(g, e.ch);
      HardFromActive(g, Step(g, e));
    } else {
      ControlGoesDown(g, e.byte);
      if 0x0a <= e.byte <= 0x0c { DownStaysHard(g, Step(g, e)); }
    }
  }

  lemma {:induction false} PreserveStaysHard(g: Grid)
    requires Shape(g) && AllHard(g)
    ensures HardRows(Preserve(g).history.scrollback)
  {
    hide FilledBlock, ScreenShape;
  }

  lemma {:induction false} EraseStaysHard(g: Grid, mode: u16)
    requires WF(g) && AllHard(g)
    ensures AllHard(Step(g, EraseInDisplay(mode)))
  {
    hide Step, Preserve, EraseDisplay, Blanked, ScreenOk, ScreenShape;
    StepText(g, EraseInDisplay(mode));
    EraseDisplayExact(g, mode, 0, 0);
    EraseHistory(g, mode);
    PreserveStaysHard(g);
    HardFromActive(g, Step(g, EraseInDisplay(mode)));
  }

  lemma {:induction false} RowEditStaysHard(g: Grid, e: Event)
    requires WF(g) && AllHard(g) && EditsRow(e)
    ensures AllHard(Step(g, e))
  {
    hide Step, EraseLine, InsertedAt, DeletedAt, ErasedAt, Blanked, ScreenOk, ScreenShape;
    StepRowEdit(g, e);
    match e {
      case EraseInLine(mode) => EraseLineExact(g, mode, 0, 0);
      case EraseCharacters(n) => EraseExact(g, n);
      case InsertCharacters(n) => InsertExact(g, n);
      case DeleteCharacters(n) => DeleteExact(g, n);
    }
    HardFromActive(g, Step(g, e));
  }

  lemma {:induction false} ShiftsStayHard(s: Screen, cols: u16, top: nat, bottom: nat, n: nat)
    requires top <= bottom < |s.cells| == |s.wraps| && n <= bottom + 1 - top && HardRows(s)
    ensures HardRows(ShiftUp(s, cols, top, bottom, n, Hard)) && HardRows(ShiftDown(s, cols, top, bottom, n))
  {
    hide BlankRow;
  }

  lemma {:induction false} PushStaysHard(s: Screen, limit: nat, cells: seq<Row>, wraps: seq<RowWrap>)
    requires HardRows(s) && forall i | 0 <= i < |wraps| :: wraps[i] == Hard
    ensures HardRows(PushScrollback(s, limit, cells, wraps))
  {
  }

  lemma {:induction false} EvictStaysHard(g: Grid, n: u16)
    requires Shape(g) && AllHard(g) && n <= g.scrollBottom - g.scrollTop + 1
    ensures AllHard(EvictRows(g, n, Hard))
  {
    hide ShiftUp, PushScrollback, ScreenShape;
    ActiveRegion(g);
    ShiftsStayHard(Active(g), g.cols, g.scrollTop, g.scrollBottom, n);
    var s, top := Active(g), g.scrollTop;
    PushStaysHard(g.history.scrollback, g.history.limit, s.cells[top..top + n], s.wraps[top..top + n]);
  }

  lemma {:induction false} ScrollStaysHard(g: Grid, count: u16)
    requires Shape(g) && AllHard(g)
    ensures AllHard(ScrollUp(g, count, Hard))
  {
    hide EvictRows, MarkRows, ScreenShape, HardRows;
    EvictStaysHard(g, Min(count, g.scrollBottom - g.scrollTop + 1));
  }

  lemma {:induction false} LinesStayHard(g: Grid, top: u16, n: u16)
    requires Shape(g) && AllHard(g) && g.scrollTop <= top <= g.scrollBottom && n <= g.scrollBottom - top + 1
    ensures AllHard(ShiftActiveDown(g, top, g.scrollBottom, n))
    ensures HardRows(ShiftUp(Active(g), g.cols, top, g.scrollBottom, n, Hard))
  {
    hide ShiftUp, ShiftDown;
    ShiftsStayHard(Active(g), g.cols, top, g.scrollBottom, n);
  }

  lemma {:induction false} RowMoveStaysHard(g: Grid, e: Event)
    requires Shape(g) && AllHard(g) && MovesRows(e)
    ensures AllHard(Step(g, e))
  {
    hide Step, ShiftUp, ShiftActiveDown, ScrollUp, HardRows;
    StepLines(g, e);
    if e.ScrollUpBy? {
      ScrollStaysHard(g, Max(e.n, 1));
    } else if e.ScrollDown? {
      LinesStayHard(g, g.scrollTop, Min(Max(e.n, 1), g.scrollBottom - g.scrollTop + 1));
    } else if e.ReverseLine? {
      LinesStayHard(ClearPendingWrap(g), g.scrollTop, 1);
    } else if g.scrollTop <= g.row <= g.scrollBottom {
      LinesStayHard(g, g.row, Min(Max(e.n, 1), g.scrollBottom - g.row + 1));
    }
  }

  lemma {:induction false} ModesKeepRows(g: Grid, modes: seq<u16>, on: bool)
    requires Shape(g)
    ensures var h := SetDecModes(g, modes, on);
            h.primary == g.primary && h.alternate == g.alternate && h.history == g.history
    decreases |modes|
  {
    hide ScreenShape, FlagsAfter, MouseAfter, EncodingAfter, Announced;
    if modes != [] { ModesKeepRows(SetDecMode(g, modes[0], on), modes[1..], on); }
  }

  lemma {:induction false} ResizeStaysHard(g: Grid, rows: u16, cols: u16)
    requires WF(g) && cols <= MAX_COLS && AllHard(g)
    ensures AllHard(Resize(g, rows, cols))
  {
    hide Resize, ScreenOk, ScreenAttrs, CellAfter;
    ResizeKeepsRectangle(g, rows, cols);
  }

  lemma {:induction false} OtherStaysHard(g: Grid, e: Event)
    requires WF(g) && AllHard(g) && EventOk(e) && !EditsRow(e) && !MovesRows(e) && !e.Print? && !e.Control?
    requires !e.EraseInDisplay?
    ensures AllHard(Step(g, e))
  {
    hide Step, SetDecModes, Resize, ScreenOk, ScreenShape, RowAfter, ColAfter, HardRows;
    if e.PrivateModes? {
      StepText(g, e);
      ModesKeepRows(g, e.modes, e.on);
    } else if e.ResetFull? || e.ResetSoft? || e.SetSize? {
      StepReset(g, e);
      ResetStaysHard(g);
      if e.SetSize? { ResizeStaysHard(g, e.rows, e.cols); }
    } else if PlainEvent(e) {
      PlainFrame(g, e);
    } else {
      StepCursor(g, e);
    }
  }

  lemma {:induction false} ResetStaysHard(g: Grid)
    requires Shape(g) && AllHard(g)
    ensures AllHard(FullReset(g)) && AllHard(SoftReset(g))
  {
    hide ScreenShape;
  }

  lemma {:induction false} StepStaysHard(g: Grid, e: Event)
    requires WF(g) && AllHard(g) && EventOk(e) && !(e.Print? && TakesWrap(g, e.ch))
    ensures AllHard(Step(g, e))
  {
    hide Step, WF, AllHard, TakesWrap;
    WFShape(g);
    if e.Print? || e.Control? {
      TextStaysHard(g, e);
    } else if e.EraseInDisplay? {
      EraseStaysHard(g, e.mode);
    } else if EditsRow(e) {
      RowEditStaysHard(g, e);
    } else if MovesRows(e) {
      RowMoveStaysHard(g, e);
    } else {
      OtherStaysHard(g, e);
    }
  }

  /**
    * Soft rows come from deferred wraps alone: over any run of any events, resets and resizes included, in which no
    * printable takes one, a grid whose rows are all hard, on both screens and in scrollback, keeps them hard.
    */
  lemma {:induction false} OnlyWrapsSoften(g: Grid, es: seq<Event>)
    requires WF(g) && AllHard(g) && EventsOk(es) && NeverWraps(g, es)
    ensures AllHard(Run(g, es))
    decreases |es|
  {
    hide Step, WF, AllHard, TakesWrap;
    WFShape(g);
    if es != [] {
      StepStaysHard(g, es[0]);
      StepKeeps(g, es[0]);
      OnlyWrapsSoften(Step(g, es[0]), es[1..]);
    }
  }

  /**
    * After any run: a printable that takes a deferred wrap goes down one row softly, every LF, VT and FF hard, and no
    * other printable or control moves a row or touches a flag.
    */
  lemma {:induction false} RunProvenance(g: Grid, es: seq<Event>, e: Event)
    requires WF(g) && EventsOk(es) && (e.Print? || e.Control?)
    ensures var s := Run(g, es);
            var h := Step(s, e);
            && (e.Print? && TakesWrap(s, e.ch) ==> WentDown(s, h, Soft, RowBelow(s)))
            && (e.Control? && 0x0a <= e.byte <= 0x0c ==> WentDown(s, h, Hard, -1))
            && ((e.Print? && !TakesWrap(s, e.ch)) || (e.Control? && !(0x0a <= e.byte <= 0x0c)) ==>
                  h.row == s.row && h.primary.wraps == s.primary.wraps && h.alternate.wraps == s.alternate.wraps
                  && h.history.scrollback == s.history.scrollback)
  {
    hide Step, Run, ScreenOk, ScreenShape, WentDown, TakesWrap, Landed, Extended, Suppressed;
    RunKeeps(g, es);
    var s := Run(g, es);
    if e.Control? {
      ControlGoesDown(s, e.byte);
    } else if TakesWrap(s, e.ch) {
      WrapGoesDown(s, e.ch);
    } else {
      PrintStays(s, e.ch);
    }
  }
}
