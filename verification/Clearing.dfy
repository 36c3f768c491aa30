/** What a full-screen clear saves to scrollback (src/grid.rs), stated on the event alone. */
module Clearing {
  import opened Basics
  import opened Cells
  import opened Rows
  import opened Damage
  import opened GridModel
  import opened Invariant
  import opened Serialize
  import opened Replay
  import opened Erasing

  /** Rows `first..=last` are the span from the first filled row to the last. */
  predicate FilledSpan(rows: seq<Row>, first: nat, last: nat) {
    && first <= last < |rows| && Filled(rows[first]) && Filled(rows[last])
    && forall r | 0 <= r < |rows| && Filled(rows[r]) :: first <= r <= last
  }

  /** A clear that is asked to save: the whole screen or from home, saving policy, primary screen, room, news. */
  predicate AsksToSave(g: Grid, mode: u16) {
    && (mode == 2 || (mode == 0 && g.row == 0 && g.col == 0))
    && g.history.policy == SaveToScrollback && !g.modes.alt && g.history.limit > 0 && g.history.mutated
  }

  /** The history with a block appended, hard-wrapped, the oldest rows making room, and noted as the last one saved. */
  function WithSaved(h: History, block: seq<Row>): History {
    h.(scrollback := Screen(KeepLast(h.scrollback.cells + block, h.limit),
                            KeepLast(h.scrollback.wraps + Repeat(Hard, |block|), h.limit)),
       lastPreserved := Some(block), mutated := false)
  }

  lemma {:induction false} SpanIsBlock(rows: seq<Row>, first: nat, last: nat)
    requires FilledSpan(rows, first, last)
    ensures FilledBlock(rows) == Some(rows[first..last + 1])
  {
    hide Filled;
    FilledBlockSpans(rows, first);
    FilledBlockSpans(rows, last);
  }

  lemma {:induction false} NoBlock(rows: seq<Row>)
    requires forall r | 0 <= r < |rows| :: !Filled(rows[r])
    ensures FilledBlock(rows).None?
  {
    hide Filled;
    if FirstFilled(rows, 0).Some? { FirstFilledIsFilled(rows, 0); }
  }

  lemma {:induction false} EraseFromKeepsHistory(g: Grid)
    requires Shape(g)
    ensures var g2 := WithActiveRow(g, EraseCells(ActiveRow(g), g.col, g.cols, PenBlank(g)));
            BlankRows(g2, g2.row + 1, g2.rows).history == g.history
  {
    hide EraseCells, WithActiveRow, ScreenShape, BlankRows;
    var now := EraseCells(ActiveRow(g), g.col, g.cols, PenBlank(g));
    WithActiveRowFrame(g, now);
    var g2 := WithActiveRow(g, now);
    BlankRowsCell(g2, g2.row + 1, g2.rows, 0);
  }

  lemma {:induction false} EraseHistory(g: Grid, mode: u16)
    requires Shape(g)
    ensures var h := Step(g, EraseInDisplay(mode));
            h.history == if mode == 3 then g.history.(scrollback := Screen([], []), offset := 0)
                         else if mode == 2 || (mode == 0 && g.row == 0 && g.col == 0) then Preserve(g).history
                         else g.history
  {
    hide Step, EraseCells, BlankRows, Preserve, WithActiveRow, ScreenShape;
    StepText(g, EraseInDisplay(mode));
    if mode == 0 {
      EraseFromKeepsHistory(if g.row == 0 && g.col == 0 then Preserve(g) else g);
    } else if mode == 1 {
      EraseAboveCell(g, 0, 0);
    } else if mode == 2 {
      PreserveFrame(g);
      BlankRowsCell(Preserve(g), 0, g.rows, 0);
    } else if mode == 3 {
      BlankRowsCell(g.(history := Forget(g.history)), 0, g.rows, 0);
    }
  }

  /**
    * The history after every ED. A clear of the whole screen, or from the home position down, that is asked to save
    * appends the span of filled rows unless it equals the last one saved; ED 3 empties the scrollback and rewinds the
    * view; every other ED leaves the history as it was.
    */
  lemma {:induction false} ClearSaves(g: Grid, mode: u16)
    requires WF(g)
    ensures var was, now := g.history, Step(g, EraseInDisplay(mode)).history;
            && (mode == 3 ==> now == was.(scrollback := Screen([], []), offset := 0))
            && (mode != 3 && !AsksToSave(g, mode) ==> now == was)
            && (AsksToSave(g, mode) && (forall r | 0 <= r < g.rows :: !Filled(g.primary.cells[r])) ==> now == was)
            && (AsksToSave(g, mode) ==>
                  forall first: nat, last: nat | FilledSpan(g.primary.cells, first, last) ::
                    var block := g.primary.cells[first..last + 1];
                    now == if was.lastPreserved == Some(block) then was.(mutated := false) else WithSaved(was, block))
  {
    hide Step, Filled, FirstFilled, LastFilled, FilledBlock, ScreenOk;
    EraseHistory(g, mode);
    if AsksToSave(g, mode) {
      if forall r | 0 <= r < |g.primary.cells| :: !Filled(g.primary.cells[r]) { NoBlock(g.primary.cells); }
      forall first: nat, last: nat | FilledSpan(g.primary.cells, first, last)
        ensures FilledBlock(g.primary.cells) == Some(g.primary.cells[first..last + 1])
      {
        SpanIsBlock(g.primary.cells, first, last);
      }
    }
  }

  /**
    * Anything printed, even a character that is dropped or joins, counts as news for the next clear; so does a scroll.
    */
  lemma {:induction false} PrintIsNews(g: Grid, ch: char, n: u16)
    requires WF(g)
    ensures Step(g, Print(ch)).history.mutated && Step(g, ScrollUpBy(n)).history.mutated
  {
    hide ScreenOk, ScreenShape, Append, PutChar, Newline, EvictRows, MarkRows;
    var g0, width := Touch(g), g.profile.charWidth(ch);
    JoinKeepsNews(g0, ch, width);
    if Append(g0, ch, width).None? {
      var g1 := g0.(pendingWrap := false, col := 0);
      NewlineKeepsNews(g1);
      PutKeepsNews(Newline(g1, Soft), ch, width);
      PutKeepsNews(g0, ch, width);
      PutKeepsNews(g0.(pendingWrap := false, col := Min(g0.col, g0.cols - 1)), ch, width);
    }
  }

  lemma {:induction false} JoinKeepsNews(g: Grid, ch: char, width: nat)
    requires Shape(g) && g.history.mutated
    ensures Append(g, ch, width).Some? ==> Append(g, ch, width).value.history.mutated
  {
    hide ScreenShape, JoinCluster, MarkRange, CursorAfterJoin;
  }

  lemma {:induction false} PutKeepsNews(g: Grid, ch: char, width: nat)
    requires Shape(g) && g.history.mutated && 1 <= width <= 2
    ensures PutChar(g, ch, width).history.mutated
  {
    hide ScreenShape, PutGlyph, PutStart, PutEnd, MarkRange;
  }

  lemma {:induction false} NewlineKeepsNews(g: Grid)
    requires Shape(g) && g.history.mutated
    ensures Newline(g, Soft).history.mutated
  {
    hide EvictRows, MarkRows, ScreenShape;
  }

  /** A glyph printed on a fresh grid with scrollback is there after the screen is cleared. */
  lemma {:induction false} PrintedThenCleared(p: Profile, rows: u16, cols: u16, limit: nat, c: char)
    requires rows >= 1 && 1 <= cols <= MAX_COLS && limit >= 1 && p.charWidth(c) == 1
    ensures var g := Step(Fresh(p, rows, cols, limit), Print(c));
            var saved := Step(g, EraseInDisplay(2)).history.scrollback;
            |saved.cells| == 1 && saved.wraps == [Hard] && |saved.cells[0]| == cols && saved.cells[0][0].contents == [c]
  {
    hide Step, Fresh, FilledSpan, WF, Shape;
    var f := Fresh(p, rows, cols, limit);
    FreshHistory(p, rows, cols, limit);
    FreshPrinted(p, rows, cols, limit, c);
    PrintIsNews(f, c, 0);
    PrintKeepsHistory(f, c);
    TopRowSaved(Step(f, Print(c)));
  }

  lemma {:induction false} TopRowSaved(g: Grid)
    requires WF(g) && !g.modes.alt && FilledSpan(g.primary.cells, 0, 0) && g.history.limit >= 1
    requires g.history == History(Screen([], []), g.history.limit, 0, true, None, SaveToScrollback)
    ensures Step(g, EraseInDisplay(2)).history.scrollback == Screen([g.primary.cells[0]], [Hard])
  {
    hide Step, FilledSpan, WF, WithSaved;
    WFShape(g);
    ClearAppends(g, 2, 0, 0);
    var row := g.primary.cells[0];
    assert g.primary.cells[0..0 + 1] == [row];
    SavedAlone(g.history, row);
  }

  lemma {:induction false} ClearAppends(g: Grid, mode: u16, first: nat, last: nat)
    requires WF(g) && AsksToSave(g, mode) && FilledSpan(g.primary.cells, first, last)
    requires g.history.lastPreserved.None?
    ensures Step(g, EraseInDisplay(mode)).history == WithSaved(g.history, g.primary.cells[first..last + 1])
  {
    hide Step, FilledSpan, WF, WithSaved;
    ClearSaves(g, mode);
  }

  lemma {:induction false} SavedAlone(h: History, row: Row)
    requires h.scrollback == Screen([], []) && h.limit >= 1
    ensures WithSaved(h, [row]).scrollback == Screen([row], [Hard])
  {
    assert [] + [row] == [row] && Repeat(Hard, 1) == [Hard] && [] + [Hard] == [Hard];
  }

  lemma {:induction false} FreshHistory(p: Profile, rows: u16, cols: u16, limit: nat)
    requires rows >= 1 && 1 <= cols <= MAX_COLS
    ensures var f := Fresh(p, rows, cols, limit);
            && WF(f) && !f.pendingWrap
            && f.history == History(Screen([], []), limit, 0, false, None, SaveToScrollback)
  {
    hide ScreenOk, ScreenShape, BlankScreen;
    FreshIsWF(p, rows, cols, limit);
  }

  lemma {:induction false} FreshPrinted(p: Profile, rows: u16, cols: u16, limit: nat, c: char)
    requires rows >= 1 && 1 <= cols <= MAX_COLS && p.charWidth(c) == 1
    ensures var g := Step(Fresh(p, rows, cols, limit), Print(c));
            && WF(g) && !g.modes.alt && g.rows == rows
            && |g.primary.cells| == rows && |g.primary.cells[0]| == cols && g.primary.cells[0][0].contents == [c]
            && FilledSpan(g.primary.cells, 0, 0)
  {
    hide Step, PutGlyph, ScreenOk, ScreenShape;
    var f := Fresh(p, rows, cols, limit);
    FreshIsWF(p, rows, cols, limit);
    FreshTakesPrint(p, rows, cols, limit);
    StepPrint(f, c, Pos(0, 0));
    var cells := Step(f, Print(c)).primary.cells;
    assert cells[0] == PutGlyph(BlankRow(cols), 0, Glyph(f, c));
    assert forall r | 1 <= r < |cells| :: cells[r] == BlankRow(cols);
  }

  lemma {:induction false} FreshTakesPrint(p: Profile, rows: u16, cols: u16, limit: nat)
    requires rows >= 1 && 1 <= cols <= MAX_COLS
    ensures PrintsAt(Fresh(p, rows, cols, limit), Pos(0, 0))
  {
    FreshIsWF(p, rows, cols, limit);
  }

  /** Printing where no wrap is pending leaves everything but the news in the history alone. */
  lemma {:induction false} PrintKeepsHistory(g: Grid, ch: char)
    requires Shape(g) && !g.pendingWrap
    ensures Step(g, Print(ch)).history == g.history.(mutated := true)
  {
    hide ScreenShape, JoinCluster, MarkRange, CursorAfterJoin, PutGlyph, PutStart, PutEnd, Newline;
  }
}
