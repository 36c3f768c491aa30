/** The row loops of the source, one row per turn, against the specifications of module GridModel. */
module RowStore {
  import opened Basics
  import opened Cells
  import opened Rows
  import opened Damage
  import opened GridModel
  import opened Scrolling

  /** The loop of `scroll_up`: the top row leaves, to scrollback when `keep`, and a blank enters at the bottom. */
  method ScrollRegion(s: Screen, sb: Screen, limit: nat, keep: bool, cols: u16, top: nat, bottom: nat, n: nat,
      wrap: RowWrap)
    returns (t: Screen, saved: Screen)
    requires RegionOf(s, top, bottom) && n <= bottom + 1 - top
    requires |sb.cells| == |sb.wraps| && (keep ==> |sb.cells| <= limit && limit > 0)
    ensures t == ShiftUp(s, cols, top, bottom, n, wrap)
    ensures saved == if keep then PushScrollback(sb, limit, s.cells[top..top + n], s.wraps[top..top + n]) else sb
  {
    hide ShiftUp, MoveBlank, PushOne, PushScrollback;
    t, saved := s, sb;
    ShiftUpNone(s, cols, top, bottom, wrap);
    PushNothing(sb, limit);
    assert s.cells[top..top] == [] && s.wraps[top..top] == [];
    var i := 0;
    while i < n
      invariant 0 <= i <= n && RegionOf(t, top, bottom)
      invariant t == ShiftUp(s, cols, top, bottom, i, wrap)
      invariant |saved.cells| == |saved.wraps|
      invariant saved == if keep then PushScrollback(sb, limit, s.cells[top..top + i], s.wraps[top..top + i]) else sb
    {
      ShiftUpRow(s, cols, top, bottom, i, wrap, top);
      if keep {
        PushOneKeepsLast(sb, limit, s.cells[top..top + i], s.wraps[top..top + i], t.cells[top], t.wraps[top]);
        assert s.cells[top..top + i] + [t.cells[top]] == s.cells[top..top + i + 1];
        assert s.wraps[top..top + i] + [t.wraps[top]] == s.wraps[top..top + i + 1];
        saved := PushOne(saved, limit, t.cells[top], t.wraps[top]);
        PushLengths(sb, limit, s.cells[top..top + i + 1], s.wraps[top..top + i + 1]);
      }
      ShiftUpOnce(s, cols, top, bottom, i, wrap);
      t := MoveBlank(t, cols, top, bottom, wrap);
      i := i + 1;
      ShiftUpRow(s, cols, top, bottom, i, wrap, top);
    }
  }

  lemma {:induction false} PushNothing(sb: Screen, limit: nat)
    requires |sb.cells| == |sb.wraps|
    ensures |sb.cells| <= limit ==> PushScrollback(sb, limit, [], []) == sb
  {
    assert sb.cells + [] == sb.cells && sb.wraps + [] == sb.wraps;
  }

  lemma {:induction false} PushLengths(sb: Screen, limit: nat, cells: seq<Row>, wraps: seq<RowWrap>)
    requires |sb.cells| == |sb.wraps| && |cells| == |wraps|
    ensures |PushScrollback(sb, limit, cells, wraps).cells| == |PushScrollback(sb, limit, cells, wraps).wraps|
  {
  }

  /** The loop of IL, SD and RI: the bottom row leaves and a blank enters at the top. */
  method ShiftRegionDown(s: Screen, cols: u16, top: nat, bottom: nat, n: nat) returns (t: Screen)
    requires RegionOf(s, top, bottom) && n <= bottom + 1 - top
    ensures t == ShiftDown(s, cols, top, bottom, n)
  {
    hide ShiftDown, MoveBlank;
    t := s;
    ShiftDownNone(s, cols, top, bottom);
    var i := 0;
    while i < n
      invariant 0 <= i <= n && RegionOf(t, top, bottom)
      invariant t == ShiftDown(s, cols, top, bottom, i)
    {
      ShiftDownOnce(s, cols, top, bottom, i);
      t := MoveBlank(t, cols, bottom, top, Hard);
      i := i + 1;
      ShiftDownRow(s, cols, top, bottom, i, top);
    }
  }

  /** `push_back` of a whole block, evicting the oldest row at the limit. */
  method PushBlock(sb: Screen, limit: nat, block: seq<Row>) returns (saved: Screen)
    requires |sb.cells| == |sb.wraps| <= limit && limit > 0
    ensures saved == PushScrollback(sb, limit, block, Repeat(Hard, |block|))
  {
    hide PushOne, PushScrollback;
    saved := sb;
    PushNothing(sb, limit);
    assert block[..0] == [] && Repeat(Hard, 0) == [];
    var i := 0;
    while i < |block|
      invariant 0 <= i <= |block| && |saved.cells| == |saved.wraps|
      invariant saved == PushScrollback(sb, limit, block[..i], Repeat(Hard, i))
    {
      PushOneKeepsLast(sb, limit, block[..i], Repeat(Hard, i), block[i], Hard);
      assert block[..i] + [block[i]] == block[..i + 1];
      assert Repeat(Hard, i) + [Hard] == Repeat(Hard, i + 1);
      saved := PushOne(saved, limit, block[i], Hard);
      i := i + 1;
      PushLengths(sb, limit, block[..i], Repeat(Hard, i));
    }
    assert block[..i] == block;
  }

  /** `iter().any(..)` over one row. */
  method RowFilled(row: Row) returns (filled: bool)
    ensures filled == Filled(row)
  {
    var i := 0;
    while i < |row|
      invariant 0 <= i <= |row| && forall k | 0 <= k < i :: row[k].contents == ""
    {
      if row[i].contents != "" {
        return true;
      }
      i := i + 1;
    }
    return false;
  }

  /** `position`. */
  method PositionFilled(cells: seq<Row>) returns (r: Option<nat>)
    ensures r == FirstFilled(cells, 0)
  {
    hide Filled;
    var i := 0;
    while i < |cells|
      invariant 0 <= i <= |cells| && FirstFilled(cells, i) == FirstFilled(cells, 0)
    {
      var filled := RowFilled(cells[i]);
      if filled {
        return Some(i);
      }
      i := i + 1;
    }
    return None;
  }

  /** `rposition`. */
  method RpositionFilled(cells: seq<Row>) returns (r: Option<nat>)
    ensures r == LastFilled(cells, |cells|)
  {
    hide Filled;
    var n := |cells|;
    while n > 0
      invariant 0 <= n <= |cells| && LastFilled(cells, n) == LastFilled(cells, |cells|)
    {
      var filled := RowFilled(cells[n - 1]);
      if filled {
        return Some(n - 1);
      }
      n := n - 1;
    }
    return None;
  }

  /** The blanking loops of ED. */
  method BlankRange(cells: seq<Row>, from: nat, to: nat, blank: Row) returns (r: seq<Row>)
    requires from <= to <= |cells|
    ensures r == cells[..from] + Repeat(blank, to - from) + cells[to..]
  {
    r := cells;
    var i := from;
    while i < to
      invariant from <= i <= to && |r| == |cells|
      invariant forall k | 0 <= k < |cells| :: r[k] == if from <= k < i then blank else cells[k]
    {
      r := r[i := blank];
      i := i + 1;
    }
  }

  /** `RowStore::resize`: re-width every row when the front row's width differs, then pop or push rows. */
  method ResizeStore(s: Screen, rows: u16, cols: u16) returns (t: Screen)
    requires |s.cells| == |s.wraps|
    ensures t == ResizeScreen(s, rows, cols)
  {
    hide ResizeRow, BlankRow;
    var cells := s.cells;
    var widthChanged := |s.cells| > 0 && |s.cells[0]| != cols;
    if |s.cells| == rows && !widthChanged {
      assert s.cells[..rows] == s.cells && s.wraps[..rows] == s.wraps;
      return s;
    }
    if widthChanged {
      var i := 0;
      while i < |cells|
        invariant 0 <= i <= |cells| == |s.cells|
        invariant forall k | 0 <= k < |cells| :: cells[k] == if k < i then ResizeRow(s.cells[k], cols) else s.cells[k]
      {
        cells := cells[i := ResizeRow(cells[i], cols)];
        i := i + 1;
      }
      assert cells == ResizeRows(s.cells, cols);
    }
    ghost var wide := cells;
    var wraps := s.wraps;
    while |cells| > rows
      invariant Min(|wide|, rows) <= |cells| == |wraps| <= |wide|
      invariant cells == wide[..|cells|] && wraps == s.wraps[..|cells|]
    {
      cells, wraps := cells[..|cells| - 1], wraps[..|wraps| - 1];
    }
    ghost var kept := |cells|;
    while |cells| < rows
      invariant kept <= |cells| == |wraps| && (|cells| <= rows || |cells| == kept)
      invariant cells == wide[..kept] + Repeat(BlankRow(cols), |cells| - kept)
      invariant wraps == s.wraps[..kept] + Repeat(Hard, |cells| - kept)
    {
      cells, wraps := cells + [BlankRow(cols)], wraps + [Hard];
    }
    t := Screen(cells, wraps);
  }

  /** The marking loop of `scroll_up`. */
  method MarkEach(d: Dirty, top: u16, bottom: u16) returns (r: Dirty)
    requires top <= bottom
    ensures r == MarkRows(d, top, bottom)
  {
    hide MarkRange;
    r := d;
    var i: u16 := top;
    while i < bottom
      invariant top <= i <= bottom && MarkRows(r, i, bottom) == MarkRows(d, top, bottom)
    {
      r := MarkRow(r, i);
      i := i + 1;
    }
    r := MarkRow(r, i);
  }

  /** A row copied out, edited in place and copied back. */
  method EditInsert(row: Row, col: nat, n: nat) returns (r: Row)
    ensures r == InsertCells(row, col, n)
  {
    var a := new Cell[|row|](i requires 0 <= i < |row| => row[i]);
    assert a[..] == row;
    InsertInPlace(a, col, n);
    return a[..];
  }

  method EditDelete(row: Row, col: nat, n: nat) returns (r: Row)
    ensures r == DeleteCells(row, col, n)
  {
    var a := new Cell[|row|](i requires 0 <= i < |row| => row[i]);
    assert a[..] == row;
    DeleteInPlace(a, col, n);
    return a[..];
  }

  method EditErase(row: Row, start: nat, end: nat, blank: Cell) returns (r: Row)
    requires start <= end <= |row|
    ensures r == EraseCells(row, start, end, blank)
  {
    var a := new Cell[|row|](i requires 0 <= i < |row| => row[i]);
    assert a[..] == row;
    EraseInPlace(a, start, end, blank);
    return a[..];
  }

  method EditJoin(row: Row, lead: nat, contents: string, link: Option<Hyperlink>, width: nat) returns (r: Row)
    requires lead < |row|
    ensures r == JoinCluster(row, lead, contents, link, width)
  {
    var a := new Cell[|row|](i requires 0 <= i < |row| => row[i]);
    assert a[..] == row;
    var attrs := a[lead].attrs;
    a[lead] := a[lead].(contents := contents, link := link);
    assert a[..] == row[lead := row[lead].(contents := contents, link := link)];
    SetCellWidthInPlace(a, lead, width, attrs);
    return a[..];
  }

  /** The in-place steps of `write_char_at_cursor` on its row, with the columns they dirty. */
  method EditPut(row: Row, col: u16, cell: Cell, width: u16) returns (r: Row, start: u16, end: u16)
    requires col < |row| && 1 <= width <= 2 && cell.wide == (width > 1)
    ensures r == PutGlyph(row, col, cell) && start == PutStart(row, col) && end == PutEnd(row, col, width)
  {
    r := row;
    start, end := col, SatAdd(col, width);
    if r[col].cont && col > 0 {
      r := r[col - 1 := DEFAULT_CELL];
      start := SatSub(start, 1);
    }
    if r[col].wide && width < 2 && col + 1 < |r| {
      r := r[col + 1 := DEFAULT_CELL];
      end := Max(end, SatAdd(col, 2));
    }
    if width > 1 && col + 2 < |r| && r[col + 1].wide {
      r := r[col + 2 := DEFAULT_CELL];
      end := Max(end, SatAdd(col, 3));
    }
    r := r[col := cell];
    if width > 1 && col + 1 < |r| {
      r := r[col + 1 := ContinuationCell(cell.attrs, cell.link)];
    }
  }
}
