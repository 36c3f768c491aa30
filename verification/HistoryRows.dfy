/** Rows held in scrollback are as well formed as the rows they came from, over every run. */
module HistoryRows {
  import opened Basics
  import opened Cells
  import opened Rows
  import opened Damage
  import opened GridModel
  import opened Invariant
  import opened ErasePolicyProof

  predicate HistoryOk(g: Grid) {
    ScreenOk(g.profile, g.history.scrollback)
  }

  lemma {:induction false} PushKeepsRows(p: Profile, s: Screen, limit: nat, cells: seq<Row>, wraps: seq<RowWrap>)
    requires ScreenOk(p, s) && forall i | 0 <= i < |cells| :: RowOk(p, cells[i])
    ensures ScreenOk(p, PushScrollback(s, limit, cells, wraps))
  {
    hide RowOk;
  }

  lemma {:induction false} EvictKeepsHistory(g: Grid, n: u16, wrap: RowWrap)
    requires WF(g) && HistoryOk(g) && n <= g.scrollBottom - g.scrollTop + 1
    ensures HistoryOk(EvictRows(g, n, wrap))
  {
    hide ShiftUp, PushScrollback, RowOk;
    var top := g.scrollTop;
    PushKeepsRows(g.profile, g.history.scrollback, g.history.limit, Active(g).cells[top..top + n],
        Active(g).wraps[top..top + n]);
  }

  lemma {:induction false} ScrollKeepsHistory(g: Grid, count: u16, wrap: RowWrap)
    requires WF(g) && HistoryOk(g)
    ensures HistoryOk(ScrollUp(g, count, wrap))
  {
    hide EvictRows, MarkRows, ScreenOk, ScreenShape;
    EvictKeepsHistory(g, Min(count, g.scrollBottom - g.scrollTop + 1), wrap);
  }

  lemma {:induction false} NewlineKeepsHistory(g: Grid, wrap: RowWrap)
    requires WF(g) && HistoryOk(g)
    ensures HistoryOk(Newline(g, wrap))
  {
    hide ScrollUp, ScreenOk, ScreenShape;
    if g.row == g.scrollBottom { ScrollKeepsHistory(g, 1, wrap); }
  }

  lemma {:induction false} WriteKeepsHistory(g: Grid, ch: char)
    requires WF(g) && HistoryOk(g)
    ensures HistoryOk(WriteChar(g, ch))
  {
    hide ScreenOk, ScreenShape, Append, PutChar, Newline;
    var g0, width := Touch(g), g.profile.charWidth(ch);
    AppendIgnores(g0, g0.history, ch, width);
    if Append(g0, ch, width).None? {
      if g0.modes.noAutowrap {
        PutIgnores(g0.(pendingWrap := false, col := Min(g0.col, g0.cols - 1)), g0.history, ch, width);
      } else if g0.pendingWrap {
        var g1 := g0.(pendingWrap := false, col := 0);
        NewlineKeepsHistory(g1, Soft);
        PutIgnores(Newline(g1, Soft), Newline(g1, Soft).history, ch, width);
      } else {
        PutIgnores(g0, g0.history, ch, width);
      }
    }
  }

  lemma {:induction false} PreserveKeepsHistory(g: Grid)
    requires WF(g) && HistoryOk(g)
    ensures HistoryOk(Preserve(g))
  {
    hide PushScrollback, RowOk, FirstFilled, LastFilled;
    if FilledBlock(g.primary.cells).Some? {
      var block := FilledBlock(g.primary.cells).value;
      FirstFilledIsBeforeLast(g.primary.cells, 0, |g.primary.cells|);
      PushKeepsRows(g.profile, g.history.scrollback, g.history.limit, block, Repeat(Hard, |block|));
    }
  }

  lemma {:induction false} EraseKeepsHistory(g: Grid, mode: u16)
    requires WF(g) && HistoryOk(g)
    ensures HistoryOk(EraseDisplay(g, mode))
  {
    hide ScreenShape, EraseCells, Preserve, RowOk;
    PreserveKeepsHistory(g);
  }

  lemma {:induction false} ControlKeepsHistory(g: Grid, byte: u8)
    requires WF(g) && HistoryOk(g)
    ensures HistoryOk(Execute(g, byte))
  {
    hide ScreenOk, ScreenShape, Newline;
    ClearPendingKeeps(g);
    NewlineKeepsHistory(ClearPendingWrap(g), Hard);
  }

  lemma {:induction false} StepKeepsHistory(g: Grid, e: Event)
    requires WF(g) && HistoryOk(g) && EventOk(e)
    ensures HistoryOk(Step(g, e))
  {
    hide ScreenOk, ScreenShape, WriteChar, Execute, EraseDisplay, ScrollUp, SetDecModes;
    if e.Print? {
      WriteKeepsHistory(g, e.ch);
    } else if e.Control? {
      ControlKeepsHistory(g, e.byte);
    } else if e.EraseInDisplay? {
      EraseKeepsHistory(g, e.mode);
    } else if e.ScrollUpBy? {
      ScrollKeepsHistory(g, Max(e.n, 1), Hard);
    } else if e.PrivateModes? {
      ModesIgnore(g, g.history, e.modes, e.on);
    } else if !e.ResetFull? {
      FreeKeepsHistory(g, e);
    }
  }

  lemma {:induction false} FreeKeepsHistory(g: Grid, e: Event)
    requires WF(g) && EventOk(e) && HistoryFree(e)
    ensures Step(g, e).history == g.history
  {
    hide Step, ScreenOk, ScreenShape;
    StepIgnores(g, g.history, e);
  }

  /** Every run keeps every scrollback row well formed: whole glyphs, paired, of legal clusters. */
  lemma {:induction false} RunKeepsHistory(g: Grid, es: seq<Event>)
    requires WF(g) && HistoryOk(g) && EventsOk(es)
    ensures HistoryOk(Run(g, es))
    decreases |es|
  {
    hide Step, ScreenOk, ScreenShape, HistoryOk;
    if es != [] {
      StepKeeps(g, es[0]);
      StepKeepsHistory(g, es[0]);
      RunKeepsHistory(Step(g, es[0]), es[1..]);
    }
  }
}
