/** EL and ED cell by cell (src/grid.rs). */
module Erasing {
  import opened Basics
  import opened Rows
  import opened Damage
  import opened GridModel
  import opened Invariant

  /** The screen that is not shown. */
  function Inactive(g: Grid): Screen {
    if g.modes.alt then g.primary else g.alternate
  }

  /** Position in reading order, the cursor's own column being clamped to the screen for mode 1. */
  predicate Reaches(g: Grid, mode: u16, r: nat, c: nat) {
    match mode
    case 0 => r > g.row || (r == g.row && c >= g.col)
    case 1 => r < g.row || (r == g.row && c <= Min(g.col, g.cols - 1))
    case 2 => true
    case 3 => true
    case _ => false
  }

  /** The half of a wide glyph left standing at the boundary on the cursor row. */
  predicate SplitHalf(g: Grid, mode: u16, r: nat, c: nat)
    requires Shape(g) && r < g.rows && c < g.cols
  {
    r == g.row &&
    if mode == 0 then c + 1 == g.col < g.cols && ActiveRow(g)[g.col].cont
    else mode == 1 && c == Min(g.col, g.cols - 1) + 1 && ActiveRow(g)[c - 1].wide
  }

  predicate Blanked(g: Grid, mode: u16, r: nat, c: nat)
    requires Shape(g) && r < g.rows && c < g.cols
  {
    Reaches(g, mode, r, c) || SplitHalf(g, mode, r, c)
  }

  lemma {:induction false} RowKeepsOther(g: Grid, row: Row)
    requires Shape(g) && |row| == g.cols
    ensures Inactive(WithActiveRow(g, row)) == Inactive(g)
  {
    hide ScreenShape;
  }

  lemma {:induction false} EraseRowCell(g: Grid, mode: u16, now: Row, c: nat)
    requires Shape(g) && c < g.cols && mode < 2
    requires now == if mode == 0 then EraseCells(ActiveRow(g), g.col, g.cols, PenBlank(g))
                    else EraseCells(ActiveRow(g), 0, Min(g.col, g.cols - 1) + 1, PenBlank(g))
    ensures |now| == g.cols && now[c] == if Blanked(g, mode, g.row, c) then PenBlank(g) else ActiveRow(g)[c]
  {
    hide EraseCells, ScreenShape;
  }

  /**
    * EL blanks, with the pen's background, exactly the part of the cursor row its mode names and the half glyph left at
    * the boundary; every other cell of both screens, every wrap flag and the scrollback stay.
    */
  lemma {:induction false} EraseLineExact(g: Grid, mode: u16, r: nat, c: nat)
    requires WF(g) && r < g.rows && c < g.cols
    ensures var h := EraseLine(g, mode);
            && h.rows == g.rows && h.cols == g.cols && h.modes == g.modes
            && Active(h).cells[r][c] ==
                 (if r == g.row && mode <= 2 && Blanked(g, mode, r, c) then PenBlank(g) else Active(g).cells[r][c])
            && Active(h).wraps == Active(g).wraps && Inactive(h) == Inactive(g) && h.history == g.history
  {
    hide EraseCells, MarkRange, ScreenOk, Blanked;
    var row := ActiveRow(g);
    if mode == 0 {
      EraseRowCell(g, mode, EraseCells(row, g.col, g.cols, PenBlank(g)), c);
    } else if mode == 1 {
      EraseRowCell(g, mode, EraseCells(row, 0, Min(g.col, g.cols - 1) + 1, PenBlank(g)), c);
    } else {
      BlankedWhole(g, mode, r, c);
    }
  }

  lemma {:induction false} BlankedWhole(g: Grid, mode: u16, r: nat, c: nat)
    requires Shape(g) && r < g.rows && c < g.cols && mode >= 2
    ensures Blanked(g, mode, r, c) <==> mode == 2 || mode == 3
  {
  }

  lemma {:induction false} BlankRowsCell(g: Grid, from: nat, to: nat, r: nat)
    requires Shape(g) && from <= to <= g.rows && r < g.rows
    ensures var h := BlankRows(g, from, to);
            && h == g.(primary := h.primary, alternate := h.alternate)
            && |Active(h).cells| == g.rows
            && Active(h).cells[r] == (if from <= r < to then PenBlankRow(g) else Active(g).cells[r])
            && Active(h).wraps == Active(g).wraps && Inactive(h) == Inactive(g)
  {
    hide PenBlankRow;
  }

  lemma {:induction false} PenRowCell(g: Grid, c: nat)
    requires c < g.cols
    ensures |PenBlankRow(g)| == g.cols && PenBlankRow(g)[c] == PenBlank(g)
  {
  }

  lemma {:induction false} EraseFromCell(g: Grid, r: nat, c: nat)
    requires Shape(g) && r < g.rows && c < g.cols
    ensures var g2 := WithActiveRow(g, EraseCells(ActiveRow(g), g.col, g.cols, PenBlank(g)));
            var h := BlankRows(g2, g2.row + 1, g2.rows);
            && h == g.(primary := h.primary, alternate := h.alternate)
            && Active(h).cells[r][c] == (if Blanked(g, 0, r, c) then PenBlank(g) else Active(g).cells[r][c])
            && Active(h).wraps == Active(g).wraps && Inactive(h) == Inactive(g)
  {
    hide EraseCells, BlankRows, WithActiveRow, ScreenShape, PenBlankRow;
    var now := EraseCells(ActiveRow(g), g.col, g.cols, PenBlank(g));
    EraseRowCell(g, 0, now, c);
    WithActiveRowFrame(g, now);
    RowKeepsOther(g, now);
    var g2 := WithActiveRow(g, now);
    BlankRowsCell(g2, g2.row + 1, g2.rows, r);
    PenRowCell(g2, c);
    RowsOf(g, r);
  }

  lemma {:induction false} EraseBelowCell(g: Grid, r: nat, c: nat)
    requires Shape(g) && r < g.rows && c < g.cols
    ensures var h := EraseDisplay(g, 0);
            && h.rows == g.rows && h.cols == g.cols && h.modes == g.modes
            && Active(h).cells[r][c] == (if Blanked(g, 0, r, c) then PenBlank(g) else Active(g).cells[r][c])
            && Active(h).wraps == Active(g).wraps && Inactive(h) == Inactive(g)
  {
    hide EraseCells, BlankRows, Preserve, WithActiveRow, ScreenShape;
    PreserveFrame(g);
    EraseFromCell(if g.row == 0 && g.col == 0 then Preserve(g) else g, r, c);
  }

  lemma {:induction false} EraseAboveCell(g: Grid, r: nat, c: nat)
    requires Shape(g) && r < g.rows && c < g.cols
    ensures var h := EraseDisplay(g, 1);
            && h.rows == g.rows && h.cols == g.cols && h.modes == g.modes && h.history == g.history
            && Active(h).cells[r][c] == (if Blanked(g, 1, r, c) then PenBlank(g) else Active(g).cells[r][c])
            && Active(h).wraps == Active(g).wraps && Inactive(h) == Inactive(g)
  {
    hide EraseCells, BlankRows, WithActiveRow, ScreenShape, PenBlankRow;
    BlankRowsCell(g, 0, g.row, r);
    BlankRowsCell(g, 0, g.row, g.row);
    PenRowCell(g, c);
    var g1 := BlankRows(g, 0, g.row);
    var now := EraseCells(ActiveRow(g1), 0, Min(g1.col, g1.cols - 1) + 1, PenBlank(g1));
    EraseRowCell(g, 1, now, c);
    WithActiveRowFrame(g1, now);
    RowKeepsOther(g1, now);
    RowsOf(g, r);
  }

  lemma {:induction false} EraseAllCell(g: Grid, mode: u16, r: nat, c: nat)
    requires Shape(g) && r < g.rows && c < g.cols && mode >= 2
    ensures var h := EraseDisplay(g, mode);
            && h.rows == g.rows && h.cols == g.cols && h.modes == g.modes
            && Active(h).cells[r][c] == (if mode <= 3 then PenBlank(g) else Active(g).cells[r][c])
            && Active(h).wraps == Active(g).wraps && Inactive(h) == Inactive(g)
            && (mode == 3 ==> h.history.scrollback == Screen([], []))
  {
    hide BlankRows, Preserve, ScreenShape, PenBlankRow;
    PreserveFrame(g);
    var kept, forgot := Preserve(g), g.(history := Forget(g.history));
    PenRowCell(kept, c);
    PenRowCell(forgot, c);
    RowsOf(g, r);
    BlankRowsCell(kept, 0, g.rows, r);
    BlankRowsCell(forgot, 0, g.rows, r);
  }

  /**
    * ED blanks, with the pen's background, exactly the cells its mode reaches in reading order and the half glyph left
    * at the boundary; wrap flags and the other screen stay, and mode 3 also empties the scrollback.
    */
  lemma {:induction false} EraseDisplayExact(g: Grid, mode: u16, r: nat, c: nat)
    requires WF(g) && r < g.rows && c < g.cols
    ensures var h := EraseDisplay(g, mode);
            && h.rows == g.rows && h.cols == g.cols && h.modes == g.modes
            && Active(h).cells[r][c] == (if Blanked(g, mode, r, c) then PenBlank(g) else Active(g).cells[r][c])
            && Active(h).wraps == Active(g).wraps && Inactive(h) == Inactive(g)
            && (mode == 3 ==> h.history.scrollback == Screen([], []))
  {
    hide EraseDisplay, Blanked, ScreenOk;
    if mode == 0 {
      EraseBelowCell(g, r, c);
    } else if mode == 1 {
      EraseAboveCell(g, r, c);
    } else {
      EraseAllCell(g, mode, r, c);
      BlankedWhole(g, mode, r, c);
    }
  }

  /**
    * What a clear keeps: the rows from the first to the last filled one, hard-wrapped, appended once, under the limit.
    */
  lemma {:induction false} PreserveExact(g: Grid)
    requires WF(g)
    ensures var h := Preserve(g);
            var saves := g.history.policy == SaveToScrollback && !g.modes.alt && g.history.limit > 0
                && g.history.mutated;
            match FilledBlock(g.primary.cells)
            case None => h == g
            case Some(block) =>
              && h.history.scrollback ==
                   (if saves && g.history.lastPreserved != Some(block)
                    then Screen(KeepLast(g.history.scrollback.cells + block, g.history.limit),
                                KeepLast(g.history.scrollback.wraps + Repeat(Hard, |block|), g.history.limit))
                    else g.history.scrollback)
              && (saves ==> Preserve(h) == h)
  {
    hide FilledBlock, ScreenOk, ScreenShape;
  }

  /** The block starts and ends with filled rows, and every filled row is inside it. */
  lemma {:induction false} FilledBlockSpans(cells: seq<Row>, r: nat)
    requires r < |cells| && Filled(cells[r])
    ensures FilledBlock(cells).Some?
    ensures var first, last := FirstFilled(cells, 0), LastFilled(cells, |cells|);
            && first.Some? && last.Some? && first.value <= r <= last.value
            && Filled(cells[first.value]) && Filled(cells[last.value])
            && FilledBlock(cells).value == cells[first.value..last.value + 1]
  {
    hide Filled;
    FirstFilledCatches(cells, 0, r);
    LastFilledCatches(cells, r, |cells|);
    FirstFilledIsFilled(cells, 0);
    LastFilledIsFilled(cells, |cells|);
  }

  lemma {:induction false} FirstFilledCatches(cells: seq<Row>, i: nat, r: nat)
    requires i <= r < |cells| && Filled(cells[r])
    ensures FirstFilled(cells, i).Some? && FirstFilled(cells, i).value <= r
    decreases r - i
  {
    hide Filled;
    if !Filled(cells[i]) { FirstFilledCatches(cells, i + 1, r); }
  }

  lemma {:induction false} LastFilledIsFilled(cells: seq<Row>, n: nat)
    requires n <= |cells| && LastFilled(cells, n).Some?
    ensures Filled(cells[LastFilled(cells, n).value])
    decreases n
  {
    hide Filled;
    if !Filled(cells[n - 1]) { LastFilledIsFilled(cells, n - 1); }
  }
}
