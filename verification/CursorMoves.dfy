/** Cursor motion and tab stops against unbounded arithmetic (src/grid/perform.rs). */
module CursorMoves {
  import opened Basics
  import opened GridModel
  import opened Invariant

  function Clamp(x: int, last: int): int {
    if x < 0 then 0 else if x > last then last else x
  }

  /** An absent or zero count means one. */
  function Count(n: u16): int {
    if n == 0 then 1 else n
  }

  /** Where a motion points before the screen edges are considered; positions in parameters are one-based. */
  function Aim(m: Move, row: int, col: int): (int, int) {
    match m
    case Up(n) => (row - Count(n), col)
    case Down(n) => (row + Count(n), col)
    case Forward(n) => (row, col + Count(n))
    case Back(n) => (row, col - Count(n))
    case NextLine(n) => (row + Count(n), 0)
    case PreviousLine(n) => (row - Count(n), 0)
    case ToColumn(n) => (row, n - 1)
    case ToRow(n) => (n - 1, col)
    case To(r, c) => (r - 1, c - 1)
  }

  /**
    * Every motion cancels a deferred wrap, starts from a real column, and lands on its target clamped to the screen,
    * for every count and in 16 bits; nothing else changes.
    */
  lemma {:induction false} MoveLandsClamped(g: Grid, m: Move)
    requires WF(g)
    ensures var h := Step(g, Cursor(m));
            var aim := Aim(m, g.row, Min(g.col, g.cols - 1));
            h == g.(row := Clamp(aim.0, g.rows - 1), col := Clamp(aim.1, g.cols - 1), pendingWrap := false,
                lastPrint := None)
  {
    hide ScreenOk, ScreenShape, RowAfter, ColAfter;
    AimClamps(m, g.row, Min(g.col, g.cols - 1), g.rows, g.cols);
  }

  lemma {:induction false} AimClamps(m: Move, row: u16, col: u16, rows: u16, cols: u16)
    requires row < rows && col < cols
    ensures RowAfter(m, row, rows) == Clamp(Aim(m, row, col).0, rows - 1)
    ensures ColAfter(m, col, cols) == Clamp(Aim(m, row, col).1, cols - 1)
  {
  }

  /**
    * A motion back undoes one forward, and one up undoes one down, exactly from the first position or when nothing was
    * clamped.
    */
  lemma {:induction false} BackUndoesForwardIff(g: Grid, n: u16)
    requires WF(g) && !g.pendingWrap
    ensures Step(Step(g, Cursor(Forward(n))), Cursor(Back(n))).col == g.col <==> g.col == 0 || g.col + Count(n) < g.cols
    ensures Step(Step(g, Cursor(Down(n))), Cursor(Up(n))).row == g.row <==> g.row == 0 || g.row + Count(n) < g.rows
  {
    hide Step, ScreenOk, ScreenShape;
    MoveLandsClamped(g, Forward(n));
    MoveLandsClamped(g, Down(n));
    assert WF(Step(g, Cursor(Forward(n)))) by { StepKeeps(g, Cursor(Forward(n))); }
    assert WF(Step(g, Cursor(Down(n)))) by { StepKeeps(g, Cursor(Down(n))); }
    MoveLandsClamped(Step(g, Cursor(Forward(n))), Back(n));
    MoveLandsClamped(Step(g, Cursor(Down(n))), Up(n));
  }

  /** HT lands on the nearest column to the right that is a multiple of eight, or on the last column before it. */
  lemma {:induction false} TabLandsOnStop(g: Grid, stop: int)
    requires WF(g) && stop % 8 == 0 && Min(g.col, g.cols - 1) < stop <= Min(g.col, g.cols - 1) + 8
    ensures var h := Step(g, Control(0x09));
            h == g.(col := Min(stop, g.cols - 1), pendingWrap := false, lastPrint := None)
  {
    hide ScreenOk, ScreenShape;
    var col := Min(g.col, g.cols - 1);
    assert stop == (col / 8 + 1) * 8;
  }

  /** DECRC undoes whatever moved the cursor since DECSC, deferred wrap included, and nothing else. */
  lemma {:induction false} RestoreUndoesMoves(g: Grid, h: Grid)
    requires WF(g) && Shape(h) && h.rows == g.rows && h.cols == g.cols
    requires h.savedRow == Step(g, Save).savedRow && h.savedCol == Step(g, Save).savedCol
    ensures Step(h, Restore) == h.(row := g.row, col := g.col, pendingWrap := g.pendingWrap, lastPrint := None)
  {
    hide ScreenOk, ScreenShape;
  }

  /** On any screen, resized since or not, DECRC goes as near as it can, and parks when the saved column is beyond. */
  lemma {:induction false} RestoreClamps(g: Grid)
    requires WF(g)
    ensures Step(g, Restore)
         == g.(row := Clamp(g.savedRow, g.rows - 1), col := Clamp(g.savedCol, g.cols),
             pendingWrap := g.savedCol >= g.cols,
               lastPrint := None)
  {
    hide Step, ScreenOk, ScreenShape;
    StepCursor(g, Restore);
  }
}
