/** The three ways to read a scrolled-back viewport (src/grid.rs, src/snapshot.rs) and the one window they show. */
module Views {
  import opened Basics
  import opened Cells
  import opened Rows
  import opened GridModel

  // ---- the specification: one contiguous window ----

  /** Scrollback followed by the live screen. */
  function Timeline(g: Grid): (s: Screen)
    requires Shape(g)
    ensures |s.cells| == |s.wraps| == |g.history.scrollback.cells| + g.rows
  {
    Screen(g.history.scrollback.cells + Active(g).cells, g.history.scrollback.wraps + Active(g).wraps)
  }

  /** How far the window starts before the live screen; an empty viewport shows the live screen. */
  function LinesBack(g: Grid, offset: nat, height: nat): nat {
    if height == 0 then 0 else Min(offset, |g.history.scrollback.cells|)
  }

  /** The live view is always the full screen. */
  function WindowRows(g: Grid, offset: nat, height: nat): nat {
    if LinesBack(g, offset, height) == 0 then g.rows else Min(height, g.rows)
  }

  function Window(g: Grid, offset: nat, height: nat): (s: Screen)
    requires Shape(g)
    ensures |s.cells| == |s.wraps| == WindowRows(g, offset, height)
  {
    var start := |g.history.scrollback.cells| - LinesBack(g, offset, height);
    var end := start + WindowRows(g, offset, height);
    Screen(Timeline(g).cells[start..end], Timeline(g).wraps[start..end])
  }

  function RowCell(row: Row, col: nat): Option<Cell> {
    if col < |row| then Some(row[col]) else None
  }

  // ---- the borrowed view ----

  /** `GridView`: indices into the scrollback and the screen, no copied rows. */
  datatype View = View(rows: u16, cols: u16, screen: Screen, scrollback: Screen, start: nat, prefix: nat)

  /** `scrollback_view`. */
  function ScrollbackView(g: Grid, offset: nat, height: u16): View
    requires Shape(g)
  {
    var sb := g.history.scrollback;
    if offset == 0 || |sb.cells| == 0 || height == 0 then View(g.rows, g.cols, Active(g), sb, 0, 0)
    else
      var rows: u16 := Min(height, g.rows);
      var start := |sb.cells| - Min(offset, |sb.cells|);
      View(rows, g.cols, Active(g), sb, start, Min(Min(start + rows, |sb.cells|) - start, rows))
  }

  function GetRow(s: Screen, i: nat): Option<Row> {
    if i < |s.cells| then Some(s.cells[i]) else None
  }

  function GetWrap(s: Screen, i: nat): Option<RowWrap> {
    if i < |s.wraps| then Some(s.wraps[i]) else None
  }

  /** `GridView::cell`. */
  function ViewCell(v: View, row: u16, col: u16): Option<Cell> {
    if row >= v.rows || col >= v.cols then None
    else match if row < v.prefix then GetRow(v.scrollback, v.start + row) else GetRow(v.screen, row - v.prefix)
      case None => None
      case Some(cells) => RowCell(cells, col)
  }

  /** `GridView::row_wrap`. */
  function ViewWrap(v: View, row: u16): Option<RowWrap> {
    if row >= v.rows then None
    else if row < v.prefix then GetWrap(v.scrollback, v.start + row)
    else GetWrap(v.screen, row - v.prefix)
  }

  /** For every offset, height and position the borrowed view reads the window, cut at the grid's width. */
  lemma {:induction false} ViewReadsWindow(g: Grid, offset: nat, height: u16, row: u16, col: u16)
    requires Shape(g)
    ensures var v, w := ScrollbackView(g, offset, height), Window(g, offset, height);
            && v.rows == |w.cells|
            && ViewWrap(v, row) == (if row < |w.wraps| then Some(w.wraps[row]) else None)
            && ViewCell(v, row, col) == (if row < |w.cells| && col < g.cols then RowCell(w.cells[row], col) else None)
  {
    var w := Window(g, offset, height);
    var start := |g.history.scrollback.cells| - LinesBack(g, offset, height);
    if row < |w.cells| {
      assert w.cells[row] == Timeline(g).cells[start + row] && w.wraps[row] == Timeline(g).wraps[start + row];
    }
  }

  // ---- the content-row lookup ----

  /** `active_content_row_cells`: the row under a viewport position at the grid's own scroll offset. */
  function ContentRow(g: Grid, row: nat): Option<Row>
    requires Shape(g)
  {
    if g.history.offset == 0 then GetRow(Active(g), row)
    else
      var sb := g.history.scrollback;
      var start := |sb.cells| - Min(g.history.offset, |sb.cells|);
      var prefix := Min(Min(start + g.rows, |sb.cells|) - start, g.rows);
      if row < prefix then GetRow(sb, start + row) else GetRow(Active(g), row - prefix)
  }

  /** Inside the viewport the lookup reads the full-height window; below it, it keeps reading live rows. */
  lemma {:induction false} ContentRowReadsWindow(g: Grid, row: nat)
    requires Shape(g)
    ensures var w := Window(g, g.history.offset, g.rows);
            var back := LinesBack(g, g.history.offset, g.rows);
            ContentRow(g, row) ==
              if row < g.rows then Some(w.cells[row])
              else if row - Min(back, g.rows) < g.rows then Some(Active(g).cells[row - Min(back, g.rows)])
              else None
  {
    var w := Window(g, g.history.offset, g.rows);
    var start := |g.history.scrollback.cells| - LinesBack(g, g.history.offset, g.rows);
    if row < g.rows {
      assert w.cells[row] == Timeline(g).cells[start + row];
    }
  }

  // ---- the owned dump ----

  /** `GridSnapshot`, with the cell conversion left out. */
  datatype Snapshot = Snapshot(rows: u16, cols: u16, cells: seq<Row>, wraps: seq<RowWrap>)

  /** `scrollback_rows_at_offset`. */
  method ScrollbackRowsAt(g: Grid, offset: nat, maxRows: nat) returns (rows: seq<Row>)
    requires Shape(g)
    ensures var sb := g.history.scrollback.cells;
            var start := |sb| - Min(offset, |sb|);
            rows == sb[start..Min(start + maxRows, |sb|)]
  {
    var sb := g.history.scrollback.cells;
    rows := [];
    if offset == 0 || |sb| == 0 || maxRows == 0 {
      return;
    }
    var start := |sb| - Min(offset, |sb|);
    rows := CopyRange(sb, start, Min(start + maxRows, |sb|));
  }

  /** Copy a range, element by element. */
  method CopyRange<T>(s: seq<T>, from: nat, to: nat) returns (r: seq<T>)
    requires from <= to <= |s|
    ensures r == s[from..to]
  {
    r := [];
    var i := from;
    while i < to
      invariant from <= i <= to && r == s[from..i]
    {
      r := r + [s[i]];
      i := i + 1;
    }
  }

  lemma {:induction false} LiveWindow(g: Grid, offset: nat, height: nat)
    requires Shape(g) && LinesBack(g, offset, height) == 0
    ensures Window(g, offset, height) == Active(g)
  {
    var sb := g.history.scrollback;
    assert Timeline(g).cells[|sb.cells|..] == Active(g).cells && Timeline(g).wraps[|sb.cells|..] == Active(g).wraps;
  }

  /** A window that starts in the first of two sequences and ends in the second. */
  lemma {:induction false} SliceSplits<T>(a: seq<T>, b: seq<T>, start: nat, length: nat)
    requires start <= |a| && start + length <= |a| + |b|
    ensures var prefix := Min(start + length, |a|) - start;
            0 <= prefix <= length && (a + b)[start..start + length] == a[start..start + prefix] + b[..length - prefix]
  {
  }

  /** A scrolled-back window is a scrollback prefix over a prefix of the live screen. */
  lemma {:induction false} WindowSplits(g: Grid, offset: nat, height: nat)
    requires Shape(g) && LinesBack(g, offset, height) > 0
    ensures var sb, live, draw := g.history.scrollback, Active(g), Min(height, g.rows);
            var start := |sb.cells| - Min(offset, |sb.cells|);
            var prefix := Min(start + draw, |sb.cells|) - start;
            && prefix <= draw
            && Window(g, offset, height).cells == sb.cells[start..start + prefix] + live.cells[..draw - prefix]
            && Window(g, offset, height).wraps == sb.wraps[start..start + prefix] + live.wraps[..draw - prefix]
  {
    var sb, draw := g.history.scrollback, Min(height, g.rows);
    var start := |sb.cells| - Min(offset, |sb.cells|);
    SliceSplits(sb.cells, Active(g).cells, start, draw);
    SliceSplits(sb.wraps, Active(g).wraps, start, draw);
  }

  /** `dump_scrollback_view`: the copied rows are the window. */
  method DumpScrollbackView(g: Grid, offset: nat, height: u16) returns (shot: Snapshot)
    requires Shape(g)
    ensures var w := Window(g, offset, height);
            shot == Snapshot(|w.cells|, g.cols, w.cells, w.wraps)
  {
    hide Window;
    var live := Active(g);
    ghost var sb := g.history.scrollback;
    var draw: u16 := Min(height, g.rows);
    var back := [];
    if offset > 0 {
      back := ScrollbackRowsAt(g, offset, draw);
    }
    if |back| == 0 {
      shot := Snapshot(g.rows, g.cols, live.cells, live.wraps);
      LiveWindow(g, offset, height);
      return;
    }
    var prefix := Min(|back|, draw);
    var start := |g.history.scrollback.cells| - Min(offset, |g.history.scrollback.cells|);
    var tailCells := CopyRange(live.cells, 0, draw - prefix);
    var headWraps := CopyRange(g.history.scrollback.wraps, start, start + prefix);
    var tailWraps := CopyRange(live.wraps, 0, draw - prefix);
    var cells, wraps := back[..prefix] + tailCells, headWraps + tailWraps;
    shot := Snapshot(draw, g.cols, cells, wraps);
    WindowSplits(g, offset, height);
  }
}
