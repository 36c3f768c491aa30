/** ICH, DCH and ECH cell by cell (src/grid/perform.rs), stated on the events and the row they found. */
module Editing {
  import opened Basics
  import opened Cells
  import opened Rows
  import opened Damage
  import opened GridModel
  import opened Invariant
  import opened Erasing

  /** Only the cells of the cursor row, and the damage, may differ. */
  ghost predicate RowEdited(g: Grid, h: Grid) {
    && h == g.(primary := h.primary, alternate := h.alternate, dirty := h.dirty)
    && |Active(h).cells| == |Active(g).cells|
    && (forall r | 0 <= r < |Active(g).cells| && r != g.row :: Active(h).cells[r] == Active(g).cells[r])
    && Active(h).wraps == Active(g).wraps && Inactive(h) == Inactive(g)
  }

  /**
    * Column `c` after `m` columns were inserted at `col`: what stood left of it stays, `m` blanks follow, and the rest
    * moved right, less the halves of a glyph cut at the cursor or at the margin.
    */
  function InsertedAt(row: Row, col: nat, m: nat, c: nat): Cell
    requires c < |row|
  {
    if col >= |row| then row[c]
    else if c < col then (if c + 1 == col && row[c].wide then DEFAULT_CELL else row[c])
    else if c < col + m then DEFAULT_CELL
    else if (c == col + m && row[col].cont) || (c + 1 == |row| && row[c - m].wide) then DEFAULT_CELL
    else row[c - m]
  }

  /**
    * Column `c` after `m` columns were deleted at `col`: the last `m` columns are blank, what stood left of the cursor
    * stays and the rest moved left, less the halves of a glyph cut at the cursor or at the blanks.
    */
  function DeletedAt(row: Row, col: nat, m: nat, c: nat): Cell
    requires c < |row|
  {
    if c + m >= |row| then DEFAULT_CELL
    else
      var cell := if c < col then row[c] else row[c + m];
      var loneLead := cell.wide && (c + 1 + m >= |row| || (c + 1 == col && !row[col + m].cont));
      var loneContinuation := cell.cont && c == col && !(col > 0 && row[col - 1].wide);
      if loneLead || loneContinuation then DEFAULT_CELL else cell
  }

  /** Column `c` after `m` columns from `col` were blanked, with any glyph half they leave standing at either end. */
  function ErasedAt(row: Row, col: nat, m: nat, blank: Cell, c: nat): Cell
    requires c < |row| && m >= 1
  {
    if col <= c < col + m then blank
    else if (c + 1 == col && col < |row| && row[col].cont) || (c == col + m && row[c - 1].wide) then blank
    else row[c]
  }

  // ---- the rows ----

  lemma {:induction false} InsertedRow(p: Profile, row: Row, col: nat, m: nat, c: nat)
    requires RowOk(p, row) && c < |row| && m >= 1
    ensures |InsertCells(row, col, m)| == |row| && InsertCells(row, col, m)[c] == InsertedAt(row, col, m, c)
  {
    hide RepairFrom, CellOk;
    if col < |row| {
      var s := InsertedCells(row, col, m);
      assert CellsOk(p, s) by {
        forall i | 0 <= i < |s| ensures CellOk(p, s[i]) {
          assert CellOk(p, DEFAULT_CELL) by { BlankIsOk(p); }
          assert i >= col + m ==> CellOk(p, row[i - m]);
        }
      }
      RepairedOk(p, s);
      InsertedOrphan(p, row, col, m, c);
    }
  }

  lemma {:induction false} BlankIsOk(p: Profile)
    ensures CellOk(p, DEFAULT_CELL)
  {
  }

  lemma {:induction false} InsertedOrphan(p: Profile, row: Row, col: nat, m: nat, c: nat)
    requires RowOk(p, row) && c < |row| && m >= 1 && col < |row|
    ensures Repaired(InsertedCells(row, col, m))[c] == InsertedAt(row, col, m, c)
  {
    hide CellsOk;
    var s := InsertedCells(row, col, m);
    assert PairedAt(row, c) && PairedAt(row, col);
    assert c + 1 < |row| ==> PairedAt(row, c + 1);
    assert c > 0 ==> PairedAt(row, c - 1);
    if c >= col + m {
      assert PairedAt(row, c - m);
      assert c - m + 1 < |row|;
      assert PairedAt(row, c - m + 1);
      assert c > col + m ==> s[c - 1] == row[c - m - 1] && PairedAt(row, c - m - 1);
      assert c + 1 < |row| ==> s[c + 1] == row[c - m + 1];
    }
  }

  lemma {:induction false} DeletedRow(p: Profile, row: Row, col: nat, m: nat, c: nat)
    requires RowOk(p, row) && c < |row| && m >= 1
    ensures |DeleteCells(row, col, m)| == |row| && DeleteCells(row, col, m)[c] == DeletedAt(row, col, m, c)
  {
    hide RepairFrom, CellOk;
    var s := DeletedCells(row, col, m);
    assert CellsOk(p, s) by {
      forall i | 0 <= i < |s| ensures CellOk(p, s[i]) {
        assert CellOk(p, DEFAULT_CELL) by { BlankIsOk(p); }
        assert i + m < |row| ==> CellOk(p, row[i + m]);
      }
    }
    RepairedOk(p, s);
    DeletedOrphan(p, row, col, m, c);
  }

  lemma {:induction false} DeletedOrphan(p: Profile, row: Row, col: nat, m: nat, c: nat)
    requires RowOk(p, row) && c < |row| && m >= 1
    ensures Repaired(DeletedCells(row, col, m))[c] == DeletedAt(row, col, m, c)
  {
    hide CellsOk;
    var s := DeletedCells(row, col, m);
    assert PairedAt(row, c);
    assert c + 1 < |row| ==> PairedAt(row, c + 1);
    assert c > 0 ==> PairedAt(row, c - 1);
    if c + m < |row| {
      assert PairedAt(row, c + m) && PairedAt(row, c + m - 1);
      assert c + m + 1 < |row| ==> PairedAt(row, c + m + 1);
      assert c + m + 1 < |row| ==> s[c + 1] == if c + 1 < col then row[c + 1] else row[c + 1 + m];
      assert c > 0 ==> s[c - 1] == if c - 1 < col then row[c - 1] else row[c - 1 + m];
    }
  }

  lemma {:induction false} ErasedRow(row: Row, col: nat, m: nat, blank: Cell, c: nat)
    requires c < |row| && col <= |row| && m >= 1
    ensures var now := EraseCells(row, Min(col, Min(col + m, |row|)), Min(col + m, |row|), blank);
            |now| == |row| && now[c] == ErasedAt(row, col, m, blank, c)
  {
    hide EraseCells;
  }

  // ---- the events ----

  lemma {:induction false} RowSet(g: Grid, row: Row, dirty: Dirty)
    requires Shape(g) && |row| == g.cols
    ensures var h := WithActiveRow(g, row).(dirty := dirty);
            RowEdited(g, h) && Shape(h) && ActiveRow(h) == row
  {
  }

  /** ICH, for every count and cursor column; nothing moves when the cursor is parked past the last one. */
  lemma {:induction false} InsertExact(g: Grid, n: u16)
    requires WF(g)
    ensures var h := Step(g, InsertCharacters(n));
            && RowEdited(g, h)
            && forall c | 0 <= c < g.cols :: ActiveRow(h)[c] == InsertedAt(ActiveRow(g), g.col, Max(n, 1), c)
  {
    hide Step, InsertCells, InsertedAt, MarkRange, WithActiveRow, RowOk, ScreenShape;
    StepRowEdit(g, InsertCharacters(n));
    ActiveRowOk(g);
    EditLengths(ActiveRow(g), g.col, Max(n, 1));
    forall c | 0 <= c < g.cols
      ensures InsertCells(ActiveRow(g), g.col, Max(n, 1))[c] == InsertedAt(ActiveRow(g), g.col, Max(n, 1), c)
    {
      InsertedRow(g.profile, ActiveRow(g), g.col, Max(n, 1), c);
    }
    RowSet(g, InsertCells(ActiveRow(g), g.col, Max(n, 1)), MarkRange(g.dirty, g.row, g.col, g.cols));
  }

  /** DCH, for every count and cursor column, the parked one included. */
  lemma {:induction false} DeleteExact(g: Grid, n: u16)
    requires WF(g)
    ensures var h := Step(g, DeleteCharacters(n));
            && RowEdited(g, h)
            && forall c | 0 <= c < g.cols :: ActiveRow(h)[c] == DeletedAt(ActiveRow(g), g.col, Max(n, 1), c)
  {
    hide Step, DeleteCells, DeletedAt, MarkRange, WithActiveRow, RowOk, ScreenShape;
    StepRowEdit(g, DeleteCharacters(n));
    ActiveRowOk(g);
    EditLengths(ActiveRow(g), g.col, Max(n, 1));
    forall c | 0 <= c < g.cols
      ensures DeleteCells(ActiveRow(g), g.col, Max(n, 1))[c] == DeletedAt(ActiveRow(g), g.col, Max(n, 1), c)
    {
      DeletedRow(g.profile, ActiveRow(g), g.col, Max(n, 1), c);
    }
    RowSet(g, DeleteCells(ActiveRow(g), g.col, Max(n, 1)), MarkRange(g.dirty, g.row, g.col, g.cols));
  }

  /** ECH. */
  lemma {:induction false} EraseExact(g: Grid, n: u16)
    requires WF(g)
    ensures var h := Step(g, EraseCharacters(n));
            && RowEdited(g, h)
            && forall c | 0 <= c < g.cols ::
                 ActiveRow(h)[c] == ErasedAt(ActiveRow(g), g.col, Max(n, 1), BlankCell(g.pen.background), c)
  {
    hide Step, EraseCells, ErasedAt, MarkRange, WithActiveRow, ScreenOk, ScreenShape;
    StepRowEdit(g, EraseCharacters(n));
    var end := Min(g.col + Max(n, 1), g.cols);
    var row, blank := ActiveRow(g), BlankCell(g.pen.background);
    forall c | 0 <= c < g.cols
      ensures EraseCells(row, Min(g.col, end), end, blank)[c] == ErasedAt(row, g.col, Max(n, 1), blank, c)
    {
      ErasedRow(row, g.col, Max(n, 1), blank, c);
    }
    RowSet(g, EraseCells(row, Min(g.col, end), end, blank), MarkRange(g.dirty, g.row, g.col, end));
  }

  // ---- one undoes the other ----

  /** No glyph of the row is cut by inserting `m` columns at `col` and deleting them again. */
  predicate NothingCut(row: Row, col: nat, m: nat) {
    m < |row| ==> !row[|row| - m - 1].wide && (col + m < |row| ==> !row[col].cont)
  }

  lemma {:induction false} UndoneAt(p: Profile, row: Row, now: Row, col: nat, m: nat, c: nat)
    requires RowOk(p, row) && |now| == |row| && m >= 1 && c + m < |row| && NothingCut(row, col, m)
    requires forall i | 0 <= i < |row| :: now[i] == InsertedAt(row, col, m, i)
    ensures DeletedAt(now, col, m, c) == row[c]
  {
    hide CellsOk;
    assert PairedAt(row, c) && PairedAt(row, c + 1);
    assert c > 0 ==> PairedAt(row, c - 1);
    assert c + 2 < |row| ==> PairedAt(row, c + 2);
  }

  lemma {:induction false} CutIsLost(p: Profile, row: Row, now: Row, col: nat, m: nat)
    requires RowOk(p, row) && |now| == |row| && 1 <= m < |row| && !NothingCut(row, col, m)
    requires forall i | 0 <= i < |row| :: now[i] == InsertedAt(row, col, m, i)
    ensures exists c :: 0 <= c < |row| - m && DeletedAt(now, col, m, c) != row[c]
  {
    var last := |row| - m - 1;
    if row[last].wide {
      assert CellOk(p, row[last]);
      assert DeletedAt(now, col, m, last) == DEFAULT_CELL;
    } else {
      assert PairedAt(row, col) && CellOk(p, row[col - 1]);
      assert now[col - 1] == DEFAULT_CELL;
      assert DeletedAt(now, col, m, col - 1) != row[col - 1];
    }
  }

  /** The cursor row reads as before in all but its last `m` columns. */
  predicate ReadsAgain(g: Grid, h: Grid, m: nat) {
    && g.row < |Active(g).cells| && h.row < |Active(h).cells|
    && var was, now := Active(g).cells[g.row], Active(h).cells[h.row];
       |now| == |was| && forall c | 0 <= c < |was| - m :: now[c] == was[c]
  }

  /** The two edits together touch only the cursor row. */
  lemma {:induction false} EditedTwice(g: Grid, g1: Grid, h: Grid)
    requires RowEdited(g, g1) && RowEdited(g1, h)
    ensures RowEdited(g, h)
  {
  }

  /**
    * A DCH undoes an ICH of the same count on every column that did not fall off the margin, exactly when no glyph is
    * cut at the cursor or at the column where the blanks begin.
    */
  lemma {:induction false} DeleteUndoesInsertIff(g: Grid, n: u16)
    requires WF(g)
    ensures var h := Step(Step(g, InsertCharacters(n)), DeleteCharacters(n));
            RowEdited(g, h) && (ReadsAgain(g, h, Max(n, 1)) <==> NothingCut(ActiveRow(g), g.col, Max(n, 1)))
  {
    hide Step, InsertedAt, DeletedAt, RowOk, ScreenShape, NothingCut, RowEdited;
    InsertExact(g, n);
    var g1 := Step(g, InsertCharacters(n));
    StepKeeps(g, InsertCharacters(n));
    DeleteExact(g1, n);
    var h := Step(g1, DeleteCharacters(n));
    EditedTwice(g, g1, h);
    assert g1.row == g.row && h.row == g.row && g1.col == g.col && g1.cols == g.cols by { EditKeepsPlace(g, g1, h); }
    ActiveRowOk(g);
    var row, now, m := ActiveRow(g), ActiveRow(g1), Max(n, 1);
    RowsOf(g, g.row);
    RowsOf(h, h.row);
    if NothingCut(row, g.col, m) {
      forall c | 0 <= c < g.cols - m ensures DeletedAt(now, g.col, m, c) == row[c] {
        UndoneAt(g.profile, row, now, g.col, m, c);
      }
    } else {
      CutNeedsRoom(row, g.col, m);
      CutIsLost(g.profile, row, now, g.col, m);
      var c :| 0 <= c < g.cols - m && DeletedAt(now, g.col, m, c) != row[c];
      assert ActiveRow(h)[c] != row[c];
    }
  }

  lemma {:induction false} EditKeepsPlace(g: Grid, g1: Grid, h: Grid)
    requires RowEdited(g, g1) && RowEdited(g1, h)
    ensures g1.row == g.row && h.row == g.row && g1.col == g.col && h.cols == g1.cols == g.cols
  {
  }

  lemma {:induction false} CutNeedsRoom(row: Row, col: nat, m: nat)
    requires !NothingCut(row, col, m)
    ensures m < |row|
  {
  }
}
