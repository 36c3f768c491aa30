/** Row editing (src/grid/write.rs and the in-row arms of src/grid/perform.rs). */
module Rows {
  import opened Basics
  import opened Cells

  type Row = seq<Cell>

  // ---- what a well-formed row is ----

  /** A wide lead is followed by its continuation unless it sits at the margin; a continuation follows a lead. */
  predicate PairedAt(row: Row, i: nat)
    requires i < |row|
  {
    && !(row[i].wide && row[i].cont)
    && (row[i].wide && i + 1 < |row| ==> row[i + 1].cont)
    && (row[i].cont ==> i > 0 && row[i - 1].wide)
  }

  predicate Paired(row: Row) {
    forall i | 0 <= i < |row| :: PairedAt(row, i)
  }

  predicate CellsOk(p: Profile, row: Row) {
    forall i | 0 <= i < |row| :: CellOk(p, row[i])
  }

  predicate RowOk(p: Profile, row: Row) {
    CellsOk(p, row) && Paired(row)
  }

  /** Every continuation carries the attributes of its lead. */
  predicate AttrsPaired(row: Row) {
    forall i | 0 < i < |row| :: row[i].cont ==> row[i].attrs == row[i - 1].attrs
  }

  predicate Exclusive(row: Row) {
    forall i | 0 <= i < |row| :: !(row[i].wide && row[i].cont)
  }

  // ---- edits ----

  function BlankRow(cols: nat): Row {
    Repeat(DEFAULT_CELL, cols)
  }

  /** Columns a cell covers: 2 for a wide lead, 1 for a filled narrow cell, else 0. */
  function CellWidth(c: Cell): u16 {
    if c.wide then 2 else if c.cont || c.contents == "" then 0 else 1
  }

  /** Write a glyph at `col`, blanking the halves of wide glyphs it cuts. */
  function PutGlyph(row: Row, col: nat, cell: Cell): (r: Row)
    requires col < |row|
    ensures |r| == |row| && r[col] == cell
    ensures forall i | 0 <= i < |row| && (i + 1 < col || i > col + 2) :: r[i] == row[i]
    ensures col > 0 ==> r[col - 1] == if row[col].cont then DEFAULT_CELL else row[col - 1]
    ensures col + 1 < |row| ==>
              r[col + 1] == if cell.wide then ContinuationCell(cell.attrs, cell.link)
                            else if row[col].wide then DEFAULT_CELL else row[col + 1]
    ensures col + 2 < |row| ==>
              r[col + 2] == if cell.wide && row[col + 1].wide then DEFAULT_CELL else row[col + 2]
  {
    var r1 := if row[col].cont && col > 0 then row[col - 1 := DEFAULT_CELL] else row;
    var r2 := if r1[col].wide && !cell.wide && col + 1 < |row| then r1[col + 1 := DEFAULT_CELL] else r1;
    var r3 := if cell.wide && col + 2 < |row| && r2[col + 1].wide then r2[col + 2 := DEFAULT_CELL] else r2;
    var r4 := r3[col := cell];
    if cell.wide && col + 1 < |row| then r4[col + 1 := ContinuationCell(cell.attrs, cell.link)] else r4
  }

  /** `set_cell_width`: re-flag the lead at `col` and create or drop its continuation. */
  function SetCellWidth(row: Row, col: nat, width: nat, attrs: Attrs): (r: Row)
    requires col < |row|
    ensures |r| == |row| && r[col] == row[col].(wide := width > 1, cont := false)
    ensures forall i | 0 <= i < |row| && (i < col || i > col + 2) :: r[i] == row[i]
    ensures col + 1 < |row| ==>
              r[col + 1] == if width > 1 then ContinuationCell(attrs, row[col].link)
                            else if row[col + 1].cont then DEFAULT_CELL else row[col + 1]
    ensures col + 2 < |row| ==>
              r[col + 2] == if width > 1 && row[col + 1].wide then DEFAULT_CELL else row[col + 2]
  {
    var r1 := row[col := row[col].(wide := width > 1, cont := false)];
    if col + 1 >= |row| then r1
    else if width > 1 then
      var r2 := r1[col + 1 := ContinuationCell(attrs, row[col].link)];
      if row[col + 1].wide && col + 2 < |row| then r2[col + 2 := DEFAULT_CELL] else r2
    else if row[col + 1].cont then r1[col + 1 := DEFAULT_CELL]
    else r1
  }

  /** Replace the cluster at `col` by a longer one of width `width`. */
  function JoinCluster(row: Row, col: nat, contents: string, link: Option<Hyperlink>, width: nat): Row
    requires col < |row|
  {
    SetCellWidth(row[col := row[col].(contents := contents, link := link)], col, width, row[col].attrs)
  }

  /** `erase_cells_bce`: blank `[start, end)` and any wide partner the boundary splits. */
  function EraseCells(row: Row, start: nat, end: nat, blank: Cell): (r: Row)
    requires start <= end <= |row|
    ensures |r| == |row|
    ensures forall i | start <= i < end :: r[i] == blank
    ensures forall i | 0 <= i < |row| && (i + 1 < start || i > end) :: r[i] == row[i]
    ensures start > 0 ==> r[start - 1] == if start < |row| && row[start].cont then blank else row[start - 1]
    ensures end < |row| ==> r[end] == if end > start && row[end - 1].wide then blank else row[end]
  {
    var r1 := row[..start] + Repeat(blank, end - start) + row[end..];
    var r2 := if 0 < start < |row| && row[start].cont then r1[start - 1 := blank] else r1;
    if start < end < |row| && row[end - 1].wide then r2[end := blank] else r2
  }

  predicate Orphan(row: Row, i: nat)
    requires i < |row|
  {
    || (row[i].cont && (i == 0 || !row[i - 1].wide))
    || (row[i].wide && (i + 1 >= |row| || !row[i + 1].cont))
  }

  /** `repair_wide_pairs` as it runs: left to right, each test seeing the repairs already made. */
  function RepairFrom(row: Row, i: nat): (r: Row)
    ensures |r| == |row|
    decreases |row| - i
  {
    if i >= |row| then row
    else RepairFrom(if Orphan(row, i) then row[i := DEFAULT_CELL] else row, i + 1)
  }

  /** The simultaneous repair: every orphan of the row as given becomes blank. */
  function Repaired(row: Row): Row {
    seq(|row|, i requires 0 <= i < |row| => if Orphan(row, i) then DEFAULT_CELL else row[i])
  }

  /** ICH shift: `n` default cells enter at `col`, the tail moves right and falls off the margin. */
  function InsertedCells(row: Row, col: nat, n: nat): Row {
    seq(|row|, i requires 0 <= i < |row| =>
      if i < col then row[i] else if i < col + n then DEFAULT_CELL else row[i - n])
  }

  function InsertCells(row: Row, col: nat, n: nat): Row {
    if col < |row| then RepairFrom(InsertedCells(row, col, n), 0) else row
  }

  /** DCH shift: cells from `col` move left by `n`; the last `n` columns are blanked wherever the cursor is. */
  function DeletedCells(row: Row, col: nat, n: nat): Row {
    seq(|row|, i requires 0 <= i < |row| =>
      if i + n >= |row| then DEFAULT_CELL else if i < col then row[i] else row[i + n])
  }

  function DeleteCells(row: Row, col: nat, n: nat): Row {
    RepairFrom(DeletedCells(row, col, n), 0)
  }

  /** One row of `RowStore::resize` under a width change. */
  function ResizeRow(row: Row, cols: nat): Row {
    if cols > |row| then
      var wider := row + BlankRow(cols - |row|);
      if |row| > 0 && row[|row| - 1].wide
      then wider[|row| := ContinuationCell(row[|row| - 1].attrs, row[|row| - 1].link)]
      else wider
    else if cols > 0 && row[cols - 1].wide then row[..cols][cols - 1 := DEFAULT_CELL]
    else row[..cols]
  }

  // ---- every edit keeps rows well formed ----

  lemma {:induction false} JoinLength(row: Row, lead: nat, contents: string, link: Option<Hyperlink>, width: nat)
    requires lead < |row|
    ensures |JoinCluster(row, lead, contents, link, width)| == |row|
  {
  }

  lemma {:induction false} EditLengths(row: Row, col: nat, n: nat)
    ensures |InsertCells(row, col, n)| == |row| && |DeleteCells(row, col, n)| == |row|
  {
  }

  lemma {:induction false} BlankRowOk(p: Profile, cols: nat, background: Color)
    ensures RowOk(p, Repeat(BlankCell(background), cols))
    ensures AttrsPaired(Repeat(BlankCell(background), cols))
    ensures BlankRow(cols) == Repeat(BlankCell(Default), cols)
  {
  }

  lemma {:induction false} PutGlyphOk(p: Profile, row: Row, col: nat, cell: Cell)
    requires RowOk(p, row) && col < |row| && CellOk(p, cell) && cell.HasContents()
    ensures RowOk(p, PutGlyph(row, col, cell))
    ensures AttrsPaired(row) ==> AttrsPaired(PutGlyph(row, col, cell))
  {
    var r := PutGlyph(row, col, cell);
    forall i | 0 <= i < |r| ensures CellOk(p, r[i]) {
      assert CellOk(p, row[i]) && CellOk(p, DEFAULT_CELL) && CellOk(p, ContinuationCell(cell.attrs, cell.link));
      assert r[i] in {cell, row[i], DEFAULT_CELL, ContinuationCell(cell.attrs, cell.link)};
    }
    PutGlyphPaired(row, col, cell);
  }

  lemma {:induction false} PutGlyphPaired(row: Row, col: nat, cell: Cell)
    requires Paired(row) && col < |row| && !cell.cont
    ensures Paired(PutGlyph(row, col, cell))
    ensures AttrsPaired(row) ==> AttrsPaired(PutGlyph(row, col, cell))
  {
    var r := PutGlyph(row, col, cell);
    assert PairedAt(row, col) && (col + 1 < |row| ==> PairedAt(row, col + 1));
    forall i | 0 <= i < |r| ensures PairedAt(r, i) {
      assert PairedAt(row, i);
      assert i + 1 < |row| ==> PairedAt(row, i + 1);
      assert i > 0 ==> PairedAt(row, i - 1);
    }
    if AttrsPaired(row) {
      forall i | 0 < i < |r| && r[i].cont ensures r[i].attrs == r[i - 1].attrs {
        assert PairedAt(r, i) && PairedAt(row, i);
      }
    }
  }

  lemma {:induction false} SetCellWidthOk(p: Profile, row: Row, col: nat, width: nat)
    requires col < |row| && row[col].HasContents() && !row[col].cont
    requires ClusterOk(p, row[col].contents) && WideCluster(p, row[col].contents) == (width > 1)
    requires Paired(row)
    requires forall i | 0 <= i < |row| && i != col :: CellOk(p, row[i])
    ensures RowOk(p, SetCellWidth(row, col, width, row[col].attrs))
    ensures AttrsPaired(row) ==> AttrsPaired(SetCellWidth(row, col, width, row[col].attrs))
  {
    var r := SetCellWidth(row, col, width, row[col].attrs);
    forall i | 0 <= i < |r| ensures CellOk(p, r[i]) {
      assert i != col ==> CellOk(p, row[i]);
    }
    forall i | 0 <= i < |r| ensures PairedAt(r, i) {
      assert PairedAt(row, i) && PairedAt(row, col);
      assert i + 1 < |row| ==> PairedAt(row, i + 1);
      assert i > 0 ==> PairedAt(row, i - 1);
      assert col + 1 < |row| ==> PairedAt(row, col + 1);
    }
    if AttrsPaired(row) {
      forall i | 0 < i < |r| && r[i].cont ensures r[i].attrs == r[i - 1].attrs {
        assert PairedAt(r, i) && PairedAt(row, i) && PairedAt(row, col);
      }
    }
  }

  lemma {:induction false} EraseCellsOk(p: Profile, row: Row, start: nat, end: nat, background: Color)
    requires RowOk(p, row) && start <= end <= |row|
    requires start == end ==> start == |row|
    ensures RowOk(p, EraseCells(row, start, end, BlankCell(background)))
    ensures AttrsPaired(row) ==> AttrsPaired(EraseCells(row, start, end, BlankCell(background)))
  {
    var blank := BlankCell(background);
    var r := EraseCells(row, start, end, blank);
    forall i | 0 <= i < |r| ensures CellOk(p, r[i]) {
      assert CellOk(p, row[i]);
      assert r[i] == row[i] || r[i] == blank;
    }
    ErasePaired(row, start, end, blank);
  }

  lemma {:induction false} ErasePaired(row: Row, start: nat, end: nat, blank: Cell)
    requires Paired(row) && start <= end <= |row| && !blank.wide && !blank.cont
    requires start == end ==> start == |row|
    ensures Paired(EraseCells(row, start, end, blank))
    ensures AttrsPaired(row) ==> AttrsPaired(EraseCells(row, start, end, blank))
  {
    hide EraseCells;
    var r := EraseCells(row, start, end, blank);
    if start < end {
      assert PairedAt(row, start) && PairedAt(row, end - 1);
      assert end < |row| ==> PairedAt(row, end);
      forall i | 0 <= i < |r| ensures PairedAt(r, i) {
        assert PairedAt(row, i);
        assert i + 1 < |row| ==> PairedAt(row, i + 1);
        assert i > 0 ==> PairedAt(row, i - 1);
      }
    } else {
      assert r == row;
    }
    if AttrsPaired(row) {
      forall i | 0 < i < |r| && r[i].cont ensures r[i].attrs == r[i - 1].attrs {
        assert PairedAt(row, i);
      }
    }
  }

  /** The in-order scan computes the simultaneous repair: no blanking creates a new orphan. */
  lemma {:induction false} RepairScanIsRepaired(row: Row)
    requires Exclusive(row)
    ensures RepairFrom(row, 0) == Repaired(row)
  {
    RepairScanStep(row, row, 0);
  }

  lemma {:induction false} RepairScanStep(row: Row, cur: Row, i: nat)
    requires Exclusive(row) && |cur| == |row| && i <= |row|
    requires forall k | 0 <= k < i :: cur[k] == Repaired(row)[k]
    requires forall k | i <= k < |row| :: cur[k] == row[k]
    ensures RepairFrom(cur, i) == Repaired(row)
    decreases |row| - i
  {
    if i < |row| {
      assert Orphan(cur, i) == Orphan(row, i);
      var next := if Orphan(cur, i) then cur[i := DEFAULT_CELL] else cur;
      RepairScanStep(row, next, i + 1);
    }
  }

  lemma {:induction false} RepairedOk(p: Profile, row: Row)
    requires CellsOk(p, row)
    ensures RowOk(p, RepairFrom(row, 0))
    ensures RepairFrom(row, 0) == Repaired(row)
  {
    assert Exclusive(row) by {
      forall i | 0 <= i < |row| ensures !(row[i].wide && row[i].cont) { assert CellOk(p, row[i]); }
    }
    RepairScanIsRepaired(row);
    var r := Repaired(row);
    forall i | 0 <= i < |r| ensures CellOk(p, r[i]) { assert CellOk(p, row[i]); }
    forall i | 0 <= i < |r| ensures PairedAt(r, i) {
      assert i + 1 < |row| ==> CellOk(p, row[i + 1]);
      assert i > 0 ==> CellOk(p, row[i - 1]);
    }
  }

  lemma {:induction false} InsertCellsOk(p: Profile, row: Row, col: nat, n: nat)
    requires RowOk(p, row)
    ensures RowOk(p, InsertCells(row, col, n)) && |InsertCells(row, col, n)| == |row|
    ensures AttrsPaired(row) ==> AttrsPaired(InsertCells(row, col, n))
  {
    if col < |row| {
      var s := InsertedCells(row, col, n);
      forall i | 0 <= i < |s| ensures CellOk(p, s[i]) {
        assert i >= col + n ==> CellOk(p, row[i - n]);
      }
      RepairedOk(p, s);
    }
  }

  lemma {:induction false} DeleteCellsOk(p: Profile, row: Row, col: nat, n: nat)
    requires RowOk(p, row)
    ensures RowOk(p, DeleteCells(row, col, n)) && |DeleteCells(row, col, n)| == |row|
  {
    var s := DeletedCells(row, col, n);
    forall i | 0 <= i < |s| ensures CellOk(p, s[i]) {
      assert i + n < |row| ==> CellOk(p, row[i + n]);
    }
    RepairedOk(p, s);
  }

  /** DCH at `col` glues the lead left of the cursor to a foreign continuation of different attributes. */
  predicate DeleteMixesPair(row: Row, col: nat, n: nat) {
    && 0 < col && col + n < |row|
    && row[col - 1].wide && row[col + n].cont
    && row[col + n].attrs != row[col - 1].attrs
  }

  /** Deleting keeps lead and continuation attributes equal exactly when it does not glue two glyphs together. */
  lemma {:induction false} DeleteKeepsAttrsIff(p: Profile, row: Row, col: nat, n: nat)
    requires RowOk(p, row) && AttrsPaired(row) && n >= 1
    ensures AttrsPaired(DeleteCells(row, col, n)) <==> !DeleteMixesPair(row, col, n)
  {
    var s := DeletedCells(row, col, n);
    var r := DeleteCells(row, col, n);
    assert r == Repaired(s) && RowOk(p, r) && CellsOk(p, s) by {
      forall i | 0 <= i < |s| ensures CellOk(p, s[i]) {
        assert i + n < |row| ==> CellOk(p, row[i + n]);
      }
      RepairedOk(p, s);
    }
    if DeleteMixesPair(row, col, n) {
      DeleteMixBreaks(p, row, col, n);
    } else {
      forall i | 0 < i < |r| && r[i].cont ensures r[i].attrs == r[i - 1].attrs {
        DeleteUnmixedAt(p, row, col, n, i);
      }
    }
  }

  lemma {:induction false} DeleteMixBreaks(p: Profile, row: Row, col: nat, n: nat)
    requires RowOk(p, row) && n >= 1 && DeleteMixesPair(row, col, n)
    requires DeleteCells(row, col, n) == Repaired(DeletedCells(row, col, n))
    ensures !AttrsPaired(DeleteCells(row, col, n))
  {
    var s := DeletedCells(row, col, n);
    assert PairedAt(row, col - 1) && PairedAt(row, col + n);
    assert s[col] == row[col + n] && s[col - 1] == row[col - 1];
    assert !Orphan(s, col) && !Orphan(s, col - 1);
    var r := Repaired(s);
    assert r[col] == s[col] && r[col - 1] == s[col - 1];
  }

  lemma {:induction false} DeleteUnmixedAt(p: Profile, row: Row, col: nat, n: nat, i: nat)
    requires RowOk(p, row) && AttrsPaired(row) && n >= 1 && !DeleteMixesPair(row, col, n)
    requires 0 < i < |row| && Repaired(DeletedCells(row, col, n))[i].cont
    requires Exclusive(DeletedCells(row, col, n))
    ensures Repaired(DeletedCells(row, col, n))[i].attrs == Repaired(DeletedCells(row, col, n))[i - 1].attrs
  {
    var s := DeletedCells(row, col, n);
    assert !Orphan(s, i) && s[i].cont && s[i - 1].wide;
    assert !Orphan(s, i - 1);
    assert i + n < |row|;
    assert s[i] == if i < col then row[i] else row[i + n];
    assert s[i - 1] == if i - 1 < col then row[i - 1] else row[i - 1 + n];
  }

  /** The glue needs a deletion of two or more issued on a continuation cell. */
  lemma {:induction false} DeleteMixNeedsContinuation(p: Profile, row: Row, col: nat, n: nat)
    requires RowOk(p, row) && n >= 1 && DeleteMixesPair(row, col, n)
    ensures col < |row| && row[col].cont && n >= 2
  {
    assert PairedAt(row, col - 1);
    assert PairedAt(row, col + n);
    assert CellOk(p, row[col]);
  }

  /** It does happen: deleting two cells on the first of two wide glyphs' continuations pairs it with the other's. */
  lemma {:induction false} DeleteMixHappens(p: Profile, c: char, a: Attrs, b: Attrs)
    requires p.charWidth(c) == 2 && a != b
    ensures var row := [Cell([c], true, false, a, None), ContinuationCell(a, None), Cell([c], true, false, b, None),
        ContinuationCell(b, None)];
            RowOk(p, row) && AttrsPaired(row) && !AttrsPaired(DeleteCells(row, 1, 2))
  {
    hide DeleteCells;
    var row := [Cell([c], true, false, a, None), ContinuationCell(a, None), Cell([c], true, false, b, None),
        ContinuationCell(b, None)];
    assert DeleteMixesPair(row, 1, 2);
    DeleteKeepsAttrsIff(p, row, 1, 2);
  }

  /**
    * A width change keeps the common columns cell for cell, except that a lead cut at the new margin is blanked;
    * a lead that stood at the old margin gains its continuation, and every other new cell is blank.
    */
  lemma {:induction false} ResizeRowSpec(p: Profile, row: Row, cols: nat)
    requires RowOk(p, row)
    ensures |ResizeRow(row, cols)| == cols && RowOk(p, ResizeRow(row, cols))
    ensures AttrsPaired(row) ==> AttrsPaired(ResizeRow(row, cols))
    ensures forall i | 0 <= i < cols && i < |row| ::
              ResizeRow(row, cols)[i] == if i + 1 == cols && cols < |row| && row[i].wide then DEFAULT_CELL
                                         else if cols == |row| && i + 1 == cols && row[i].wide then DEFAULT_CELL
                                         else row[i]
    ensures forall i | |row| <= i < cols ::
              ResizeRow(row, cols)[i] == if i == |row| && i > 0 && row[i - 1].wide
                                         then ContinuationCell(row[i - 1].attrs, row[i - 1].link)
                                         else DEFAULT_CELL
  {
    hide RowOk;
    ResizeRowOk(p, row, cols);
  }

  lemma {:induction false} ResizeRowOk(p: Profile, row: Row, cols: nat)
    requires RowOk(p, row)
    ensures RowOk(p, ResizeRow(row, cols))
    ensures AttrsPaired(row) ==> AttrsPaired(ResizeRow(row, cols))
  {
    var r := ResizeRow(row, cols);
    forall i | 0 <= i < |r| ensures CellOk(p, r[i]) {
      assert i < |row| ==> CellOk(p, row[i]);
      assert |row| > 0 ==> CellOk(p, row[|row| - 1]);
    }
    forall i | 0 <= i < |r| ensures PairedAt(r, i) {
      assert i < |row| ==> PairedAt(row, i) && CellOk(p, row[i]);
      assert i + 1 < |row| ==> PairedAt(row, i + 1) && CellOk(p, row[i + 1]);
      assert 0 < i <= |row| ==> PairedAt(row, i - 1) && CellOk(p, row[i - 1]);
    }
  }

  // ---- the in-place forms of the source ----

  /** `set_cell_width` on a row slice. */
  method SetCellWidthInPlace(row: array<Cell>, col: nat, width: nat, attrs: Attrs)
    requires col < row.Length
    modifies row
    ensures row[..] == SetCellWidth(old(row[..]), col, width, attrs)
  {
    ghost var was := row[..];
    row[col] := row[col].(wide := width > 1, cont := false);
    if col + 1 < row.Length {
      if width > 1 {
        var orphan := row[col + 1].wide && col + 2 < row.Length;
        row[col + 1] := ContinuationCell(attrs, row[col].link);
        if orphan {
          row[col + 2] := DEFAULT_CELL;
        }
      } else if row[col + 1].cont {
        row[col + 1] := DEFAULT_CELL;
      }
    }
    assert row[..] == SetCellWidth(was, col, width, attrs);
  }

  /** `fill` on a sub-slice. */
  method FillInPlace(row: array<Cell>, from: nat, to: nat, cell: Cell)
    requires from <= to <= row.Length
    modifies row
    ensures forall k | from <= k < to :: row[k] == cell
    ensures forall k | 0 <= k < row.Length && !(from <= k < to) :: row[k] == old(row[k])
  {
    var i := from;
    while i < to
      invariant from <= i <= to
      invariant forall k | from <= k < i :: row[k] == cell
      invariant forall k | 0 <= k < row.Length && !(from <= k < i) :: row[k] == old(row[k])
    {
      row[i] := cell;
      i := i + 1;
    }
  }

  /** `erase_cells_bce` on a row slice. */
  method EraseInPlace(row: array<Cell>, start: nat, end: nat, blank: Cell)
    requires start <= end <= row.Length
    modifies row
    ensures row[..] == EraseCells(old(row[..]), start, end, blank)
  {
    ghost var was := row[..];
    var splitLead := start > 0 && start < row.Length && row[start].cont;
    var splitContinuation := end > start && end < row.Length && row[end - 1].wide;
    FillInPlace(row, start, end, blank);
    if splitLead {
      row[start - 1] := blank;
    }
    if splitContinuation {
      row[end] := blank;
    }
    assert row[..] == EraseCells(was, start, end, blank);
  }

  /** `repair_wide_pairs` on a row slice. */
  method RepairInPlace(row: array<Cell>)
    modifies row
    ensures row[..] == RepairFrom(old(row[..]), 0)
  {
    ghost var was := row[..];
    var i := 0;
    while i < row.Length
      invariant 0 <= i <= row.Length
      invariant RepairFrom(row[..], i) == RepairFrom(was, 0)
    {
      ghost var before := row[..];
      var orphanContinuation := row[i].cont && (i == 0 || !row[i - 1].wide);
      var orphanLead := row[i].wide && (i + 1 >= row.Length || !row[i + 1].cont);
      if orphanContinuation || orphanLead {
        row[i] := DEFAULT_CELL;
        assert row[..] == before[i := DEFAULT_CELL];
      }
      assert Orphan(before, i) == (orphanContinuation || orphanLead);
      i := i + 1;
    }
  }

  /** Move `[col, end - n)` right by `n`, from the back. */
  method ShiftRightInPlace(row: array<Cell>, col: nat, n: nat)
    requires col < row.Length
    modifies row
    ensures forall k | 0 <= k < row.Length && k < col + n :: row[k] == old(row[k])
    ensures forall k {:trigger row[k]} | col + n <= k < row.Length :: row[k] == old(row[k - n])
  {
    var end := row.Length;
    var c := if n <= end then end - n else 0;
    while c > col
      invariant c <= end
      invariant c > col ==> c + n <= end
      invariant forall k | 0 <= k < end && k < c + n :: row[k] == old(row[k])
      invariant forall k {:trigger row[k]} | c + n <= k < end && col + n <= k :: row[k] == old(row[k - n])
      invariant c <= col ==> c + n >= end || c == col
    {
      c := c - 1;
      assert row[c] == old(row[c]);
      row[c + n] := row[c];
    }
  }

  /** ICH on a row slice: shift right from the back, blank the gap, repair. */
  method InsertInPlace(row: array<Cell>, col: nat, n: nat)
    modifies row
    ensures row[..] == InsertCells(old(row[..]), col, n)
  {
    hide RepairFrom;
    ghost var was := row[..];
    var end := row.Length;
    if col >= end {
      return;
    }
    ShiftRightInPlace(row, col, n);
    var top := if col + n < end then col + n else end;
    FillInPlace(row, col, top, DEFAULT_CELL);
    forall k | 0 <= k < end ensures row[k] == InsertedCells(was, col, n)[k] {
      assert k >= col + n ==> row[k] == was[k - n];
    }
    assert row[..] == InsertedCells(was, col, n);
    RepairInPlace(row);
  }

  /** Move cells left by `n` onto `[col, tail)`. */
  method ShiftLeftInPlace(row: array<Cell>, col: nat, n: nat, tail: nat)
    requires tail + n <= row.Length || tail == 0
    modifies row
    ensures forall k | 0 <= k < row.Length && !(col <= k < tail) :: row[k] == old(row[k])
    ensures forall k {:trigger row[k]} | col <= k < tail :: row[k] == old(row[k + n])
  {
    ghost var was := row[..];
    var c := col;
    while c < tail
      invariant col <= c && (c <= tail || c == col)
      invariant forall k | 0 <= k < col && k < row.Length :: row[k] == was[k]
      invariant forall k | c <= k < row.Length :: row[k] == was[k]
      invariant forall k {:trigger row[k]} | col <= k < c :: k < tail && row[k] == was[k + n]
    {
      assert row[c + n] == was[c + n];
      row[c] := row[c + n];
      c := c + 1;
    }
  }

  /** DCH on a row slice: shift left, blank the last `n` columns, repair. */
  method DeleteInPlace(row: array<Cell>, col: nat, n: nat)
    modifies row
    ensures row[..] == DeleteCells(old(row[..]), col, n)
  {
    hide RepairFrom;
    ghost var was := row[..];
    var cols := row.Length;
    var tail := if n <= cols then cols - n else 0;
    ShiftLeftInPlace(row, col, n, tail);
    FillInPlace(row, tail, cols, DEFAULT_CELL);
    DeletedFrom(was, row[..], col, n, tail);
    RepairInPlace(row);
  }

  lemma {:induction false} DeletedFrom(was: Row, now: Row, col: nat, n: nat, tail: nat)
    requires |now| == |was| && tail == (if n <= |was| then |was| - n else 0)
    requires forall k | 0 <= k < tail && k < col :: now[k] == was[k]
    requires forall k {:trigger now[k]} | col <= k < tail :: now[k] == was[k + n]
    requires forall k | tail <= k < |was| :: now[k] == DEFAULT_CELL
    ensures now == DeletedCells(was, col, n)
  {
  }
}
