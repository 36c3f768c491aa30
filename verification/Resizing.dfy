/** What `set_size` keeps (src/grid.rs, `RowStore::resize`). */
module Resizing {
  import opened Basics
  import opened Cells
  import opened Rows
  import opened GridModel
  import opened Invariant
  import opened Serialize
  import opened Replay

  /** A wide glyph whose second column the new margin cuts off. */
  predicate CutLead(row: Row, c: nat, cols: nat)
    requires c < |row|
  {
    c + 1 == cols < |row| && row[c].wide
  }

  /** What column `c` of a row reads after the row became `cols` wide. */
  function CellAfter(row: Row, c: nat, cols: nat): Cell {
    if c < |row| then (if CutLead(row, c, cols) then DEFAULT_CELL else row[c])
    else if c == |row| && c > 0 && row[c - 1].wide then ContinuationCell(row[c - 1].attrs, row[c - 1].link)
    else DEFAULT_CELL
  }

  /** The whole new screen, cell by cell, in terms of the old one. */
  ghost predicate ResizedTo(s: Screen, t: Screen, rows: nat, cols: nat) {
    && ScreenShape(t, rows, cols)
    && (forall r | 0 <= r < rows && r < |s.wraps| :: t.wraps[r] == s.wraps[r])
    && (forall r | |s.wraps| <= r < rows :: t.wraps[r] == Hard)
    && (forall r, c | 0 <= r < rows && r < |s.cells| && 0 <= c < cols ::
         t.cells[r][c] == CellAfter(s.cells[r], c, cols))
    && (forall r | |s.cells| <= r < rows :: t.cells[r] == BlankRow(cols))
  }

  lemma {:induction false} RowAfterResize(p: Profile, row: Row, cols: nat, c: nat)
    requires RowOk(p, row) && c < cols && cols != |row|
    ensures |ResizeRow(row, cols)| == cols && ResizeRow(row, cols)[c] == CellAfter(row, c, cols)
  {
    hide RowOk;
    ResizeRowSpec(p, row, cols);
  }

  lemma {:induction false} ResizeScreenSpec(p: Profile, s: Screen, oldRows: nat, oldCols: nat, rows: u16, cols: u16)
    requires ScreenShape(s, oldRows, oldCols) && ScreenOk(p, s) && oldRows >= 1
    ensures ResizedTo(s, ResizeScreen(s, rows, cols), rows, cols)
  {
    hide ResizeRow, RowOk, BlankRow;
    var t := ResizeScreen(s, rows, cols);
    assert ScreenShape(t, rows, cols) by { ResizeScreenShape(s, oldRows, oldCols, rows, cols); }
    forall r, c | 0 <= r < rows && r < |s.cells| && 0 <= c < cols
      ensures t.cells[r][c] == CellAfter(s.cells[r], c, cols)
    {
      if cols != oldCols { RowAfterResize(p, s.cells[r], cols, c); }
    }
  }

  /**
    * A resize of any kind, zero dimensions included: both screens keep their top-left rectangle and its wrap flags,
    * the cursor and the scroll region are clamped, scrollback is untouched, and the result is well formed again.
    */
  lemma {:induction false} ResizeKeepsRectangle(g: Grid, rows0: u16, cols0: u16)
    requires WF(g) && cols0 <= MAX_COLS
    ensures var h := Resize(g, rows0, cols0);
            && h.rows == Max(rows0, 1) && h.cols == Max(cols0, 1)
            && ResizedTo(g.primary, h.primary, h.rows, h.cols)
            && ResizedTo(g.alternate, h.alternate, h.rows, h.cols)
            && h.row == Min(g.row, h.rows - 1) && h.col == Min(g.col, h.cols - 1) && !h.pendingWrap
            && h.scrollTop == 0 && h.scrollBottom == h.rows - 1 && h.history == g.history
            && WF(h) && (AttrsOk(g) ==> AttrsOk(h))
  {
    hide ResizeScreen, ScreenOk, ScreenAttrs, ResizedTo, ScreenShape;
    ResizeScreenSpec(g.profile, g.primary, g.rows, g.cols, Max(rows0, 1), Max(cols0, 1));
    ResizeScreenSpec(g.profile, g.alternate, g.rows, g.cols, Max(rows0, 1), Max(cols0, 1));
    ResizeKeeps(g, rows0, cols0);
  }

  /** Some row ends in a wide lead. */
  predicate MarginLead(s: Screen) {
    exists r | 0 <= r < |s.cells| :: |s.cells[r]| > 0 && s.cells[r][|s.cells[r]| - 1].wide
  }

  /** The row with a wide lead at its margin blanked. */
  function Trimmed(row: Row): Row {
    if |row| > 0 && row[|row| - 1].wide then row[|row| - 1 := DEFAULT_CELL] else row
  }

  lemma {:induction false} RowThereAndBack(row: Row, cols: nat)
    requires |row| > 0 && cols > |row|
    ensures ResizeRow(ResizeRow(row, cols), |row|) == Trimmed(row)
  {
  }

  lemma {:induction false} ThereAndBackRow(s: Screen, rows: u16, cols: u16, rows': u16, cols': u16, r: nat)
    requires ScreenShape(s, rows, cols) && 1 <= rows <= rows' && 1 <= cols < cols' && r < rows
    ensures var t := ResizeScreen(s, rows', cols'); |t.cells| == |t.wraps|
    ensures var u := ResizeScreen(ResizeScreen(s, rows', cols'), rows, cols);
            |u.cells| == rows && u.cells[r] == Trimmed(s.cells[r]) && u.wraps == s.wraps
  {
    hide ResizeRow, BlankRow, Trimmed;
    var t := ResizeScreen(s, rows', cols');
    ResizeScreenShape(s, rows, cols, rows', cols');
    RowThereAndBack(s.cells[r], cols');
    assert t.cells[r] == ResizeRow(s.cells[r], cols');
  }

  lemma {:induction false} SameWidthThereAndBack(s: Screen, rows: u16, cols: u16, rows': u16)
    requires ScreenShape(s, rows, cols) && 1 <= rows <= rows'
    ensures var t := ResizeScreen(s, rows', cols); |t.cells| == |t.wraps|
    ensures ResizeScreen(ResizeScreen(s, rows', cols), rows, cols) == s
  {
    hide ResizeRow, BlankRow;
    var t := ResizeScreen(s, rows', cols);
    assert t.cells[0] == s.cells[0];
    assert t.cells[..rows] == s.cells && t.wraps[..rows] == s.wraps;
  }

  lemma {:induction false} AllTrimmedIff(s: Screen, u: Screen)
    requires |u.cells| == |s.cells| && u.wraps == s.wraps
    requires forall r | 0 <= r < |s.cells| :: u.cells[r] == Trimmed(s.cells[r])
    ensures u == s <==> !MarginLead(s)
  {
    if MarginLead(s) {
      var r :| 0 <= r < |s.cells| && |s.cells[r]| > 0 && s.cells[r][|s.cells[r]| - 1].wide;
      assert !u.cells[r][|s.cells[r]| - 1].wide;
    } else {
      assert u.cells == s.cells;
    }
  }

  /**
    * Growing a screen and shrinking it back is the identity exactly when no column was added or no row ends in a wide
    * lead: growing gives such a lead its second column, so shrinking cuts it.
    */
  lemma {:induction false} GrowThenShrinkIff(s: Screen, rows: u16, cols: u16, rows': u16, cols': u16)
    requires ScreenShape(s, rows, cols) && 1 <= rows <= rows' && 1 <= cols <= cols'
    ensures var t := ResizeScreen(s, rows', cols'); |t.cells| == |t.wraps|
    ensures ResizeScreen(ResizeScreen(s, rows', cols'), rows, cols) == s <==> (cols' == cols || !MarginLead(s))
  {
    hide ResizeRow, ResizeScreen, MarginLead, Trimmed;
    if cols' == cols {
      SameWidthThereAndBack(s, rows, cols, rows');
    } else {
      ThereAndBackRow(s, rows, cols, rows', cols', 0);
      var u := ResizeScreen(ResizeScreen(s, rows', cols'), rows, cols);
      forall r | 0 <= r < |s.cells| ensures u.cells[r] == Trimmed(s.cells[r]) {
        ThereAndBackRow(s, rows, cols, rows', cols', r);
      }
      AllTrimmedIff(s, u);
    }
  }

  /**
    * It does lose one: a wide glyph printed on a one-cell grid is gone after the grid grew by a column and shrank back.
    */
  lemma {:induction false} ResizeLosesGlyph(p: Profile, c: char, limit: nat)
    requires p.charWidth(c) == 2
    ensures var g := Step(Fresh(p, 1, 1, limit), Print(c));
            && g.primary.cells[0][0].contents == [c]
            && Resize(Resize(g, 1, 2), 1, 1).primary != g.primary
  {
    hide Step, PutGlyph, ScreenOk, ResizeScreen;
    var f := Fresh(p, 1, 1, limit);
    FreshIsWF(p, 1, 1, limit);
    StepPrint(f, c, Pos(0, 0));
    var g := Step(f, Print(c));
    assert g.primary.cells[0][0].wide;
    assert MarginLead(g.primary);
    GrowThenShrinkIff(g.primary, 1, 1, 1, 2);
  }
}
