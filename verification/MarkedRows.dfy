/** For each in-row edit, exactly when the columns it marks cover every cell it changes. */
module MarkedRows {
  import opened Basics
  import opened Cells
  import opened Rows
  import opened GridModel

  /** Nothing changed outside columns `[start, end)`. */
  predicate Within(row: Row, now: Row, start: int, end: int) {
    |now| == |row| && forall c | 0 <= c < |row| && !(start <= c < end) :: now[c] == row[c]
  }

  lemma {:induction false} PutWithin(row: Row, col: u16, cell: Cell, width: u16)
    requires Paired(row) && col < |row| <= MAX_COLS && 1 <= width <= 2 && cell.wide == (width > 1)
    ensures Within(row, PutGlyph(row, col, cell), PutStart(row, col), PutEnd(row, col, width))
  {
    assert PairedAt(row, col);
    hide Paired;
  }

  /** A join that widens over a neighbouring lead, whose continuation is then blanked past the mark. */
  predicate JoinCuts(row: Row, lead: nat, width: nat)
    requires lead < |row|
  {
    width > 1 && lead + 2 < |row| && row[lead + 1].wide
  }

  function JoinSpan(row: Row, lead: u16, width: u16): u16
    requires lead < |row|
  {
    SatAdd(lead, Max(Max(CellWidth(row[lead]), width), 1))
  }

  lemma {:induction false} JoinWithinIff(row: Row, lead: u16, contents: string, link: Option<Hyperlink>, width: u16)
    requires Paired(row) && lead < |row| <= MAX_COLS && width <= 2 && !row[lead].cont
    ensures Within(row, JoinCluster(row, lead, contents, link, width), lead, JoinSpan(row, lead, width))
            <==> !JoinCuts(row, lead, width)
  {
    var now := JoinCluster(row, lead, contents, link, width);
    assert PairedAt(row, lead);
    assert lead + 1 < |row| ==> PairedAt(row, lead + 1);
    hide Paired;
    if JoinCuts(row, lead, width) {
      assert now[lead + 2] != row[lead + 2];
    }
  }

  /** A boundary of `[start, end)` falls inside a wide pair. */
  predicate EraseCuts(row: Row, start: nat, end: nat)
    requires start <= end <= |row|
  {
    || (0 < start < |row| && row[start].cont)
    || (start < end < |row| && row[end - 1].wide)
  }

  lemma {:induction false} EraseWithinIff(row: Row, start: nat, end: nat, blank: Cell)
    requires Paired(row) && start <= end <= |row| && !blank.wide && !blank.cont
    ensures Within(row, EraseCells(row, start, end, blank), start, end) <==> !EraseCuts(row, start, end)
  {
    var now := EraseCells(row, start, end, blank);
    if 0 < start < |row| && row[start].cont {
      assert PairedAt(row, start);
      assert now[start - 1] == blank && row[start - 1].wide;
    }
    if start < end < |row| && row[end - 1].wide {
      assert PairedAt(row, end - 1);
      assert now[end] == blank && row[end].cont;
    }
  }

  /** ICH on a continuation: the lead it belongs to is blanked left of the cursor. */
  predicate InsertCuts(row: Row, col: nat) {
    0 < col < |row| && row[col].cont
  }

  lemma {:induction false} InsertWithinIff(p: Profile, row: Row, col: nat, n: nat)
    requires RowOk(p, row) && n >= 1
    ensures Within(row, InsertCells(row, col, n), col, |row|) <==> !InsertCuts(row, col)
  {
    if col < |row| {
      var s := InsertedCells(row, col, n);
      forall i | 0 <= i < |s| ensures CellOk(p, s[i]) {
        assert i >= col + n ==> CellOk(p, row[i - n]);
      }
      RepairedOk(p, s);
      var now := Repaired(s);
      assert InsertCells(row, col, n) == now;
      forall c | 0 <= c < col ensures now[c] == if c + 1 == col && row[c].wide then DEFAULT_CELL else row[c] {
        assert PairedAt(row, c) && PairedAt(row, c + 1);
        assert s[c] == row[c] && s[c + 1] == (if c + 1 == col then DEFAULT_CELL else row[c + 1]);
        assert c > 0 ==> s[c - 1] == row[c - 1];
      }
      if col > 0 { assert PairedAt(row, col) && PairedAt(row, col - 1); }
      hide RepairFrom, InsertedCells, Repaired, CellsOk, Paired;
    }
  }

  /** Where DCH reaches left of the cursor. */
  predicate DeleteCuts(row: Row, col: nat, n: nat) {
    if col + n <= |row|
    then 0 < col && row[col - 1].wide && !(col + n < |row| && row[col + n].cont)
    else exists i | 0 <= i < |row| :: i < col && i + n >= |row| && row[i] != DEFAULT_CELL
  }

  lemma {:induction false} DeleteWithinIff(p: Profile, row: Row, col: nat, n: nat)
    requires RowOk(p, row) && n >= 1 && col <= |row|
    ensures Within(row, DeleteCells(row, col, n), col, |row|) <==> !DeleteCuts(row, col, n)
  {
    var s := DeletedCells(row, col, n);
    forall i | 0 <= i < |s| ensures CellOk(p, s[i]) {
      assert i + n < |row| ==> CellOk(p, row[i + n]);
    }
    RepairedOk(p, s);
    var now := Repaired(s);
    assert DeleteCells(row, col, n) == now;
    if col + n <= |row| {
      DeleteFits(row, col, n);
    } else {
      DeleteOverruns(row, col, n);
    }
  }

  lemma {:induction false} DeleteFits(row: Row, col: nat, n: nat)
    requires Paired(row) && n >= 1 && col + n <= |row|
    ensures Within(row, Repaired(DeletedCells(row, col, n)), col, |row|) <==> !DeleteCuts(row, col, n)
  {
    var s := DeletedCells(row, col, n);
    var now := Repaired(s);
    forall c | 0 <= c < col
      ensures now[c] == if c + 1 == col && DeleteCuts(row, col, n) then DEFAULT_CELL else row[c]
    {
      assert PairedAt(row, c) && (c + 1 < |row| ==> PairedAt(row, c + 1));
      assert s[c] == row[c];
      assert c > 0 ==> s[c - 1] == row[c - 1];
      assert c + 1 < col ==> s[c + 1] == row[c + 1];
      assert c + 1 == col < |row| ==> s[col] == if col + n >= |row| then DEFAULT_CELL else row[col + n];
    }
    hide DeletedCells, Repaired, Paired;
  }

  lemma {:induction false} DeleteOverruns(row: Row, col: nat, n: nat)
    requires Paired(row) && n >= 1 && col <= |row| < col + n
    ensures Within(row, Repaired(DeletedCells(row, col, n)), col, |row|) <==> !DeleteCuts(row, col, n)
  {
    var s := DeletedCells(row, col, n);
    var now := Repaired(s);
    if DeleteCuts(row, col, n) {
      var i :| 0 <= i < |row| && i < col && i + n >= |row| && row[i] != DEFAULT_CELL;
      assert s[i] == DEFAULT_CELL && now[i] == DEFAULT_CELL;
    } else {
      forall c | 0 <= c < col ensures now[c] == row[c] {
        assert PairedAt(row, c);
        assert c + n >= |row| ==> row[c] == DEFAULT_CELL;
        assert c + 1 < |row| && c + 1 < col ==> s[c + 1] == row[c + 1];
        assert c + 1 == col < |row| ==> c + n >= |row|;
        assert c > 0 ==> s[c - 1] == row[c - 1];
      }
    }
  }
}
