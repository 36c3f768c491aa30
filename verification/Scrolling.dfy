/** Region scrolling: the clamped shift, the row-at-a-time loop it stands for, and what reaches scrollback. */
module Scrolling {
  import opened Basics
  import opened Rows
  import opened Damage
  import opened GridModel

  predicate RegionOf(s: Screen, top: nat, bottom: nat) {
    top <= bottom < |s.cells| == |s.wraps|
  }

  // ---- one row at a time ----

  /** `remove_with_wrap(at)` followed by `insert_with_wrap(to)` of a blank row. */
  function MoveBlank(s: Screen, cols: u16, at: nat, to: nat, wrap: RowWrap): Screen
    requires at < |s.cells| == |s.wraps| && to < |s.cells|
  {
    var cells := s.cells[..at] + s.cells[at + 1..];
    var wraps := s.wraps[..at] + s.wraps[at + 1..];
    Screen(cells[..to] + [BlankRow(cols)] + cells[to..], wraps[..to] + [wrap] + wraps[to..])
  }

  /** The loop of SU and DL: the top row leaves, a blank enters at the bottom. */
  function LoopUp(s: Screen, cols: u16, top: nat, bottom: nat, count: nat, wrap: RowWrap): (t: Screen)
    requires RegionOf(s, top, bottom)
    ensures |t.cells| == |s.cells| == |t.wraps|
    decreases count
  {
    if count == 0 then s else MoveBlank(LoopUp(s, cols, top, bottom, count - 1, wrap), cols, top, bottom, wrap)
  }

  /** The loop of SD, IL and RI: the bottom row leaves, a blank enters at the top. */
  function LoopDown(s: Screen, cols: u16, top: nat, bottom: nat, count: nat): (t: Screen)
    requires RegionOf(s, top, bottom)
    ensures |t.cells| == |s.cells| == |t.wraps|
    decreases count
  {
    if count == 0 then s else MoveBlank(LoopDown(s, cols, top, bottom, count - 1), cols, bottom, top, Hard)
  }

  // ---- row by row ----

  lemma {:induction false} ShiftUpRow(s: Screen, cols: u16, top: nat, bottom: nat, n: nat, wrap: RowWrap, r: nat)
    requires RegionOf(s, top, bottom) && n <= bottom + 1 - top && r < |s.cells|
    ensures var t := ShiftUp(s, cols, top, bottom, n, wrap);
            && |t.cells| == |s.cells| == |t.wraps|
            && t.cells[r] == (if top <= r <= bottom then (if r + n <= bottom then s.cells[r + n] else BlankRow(cols))
               else s.cells[r])
            && t.wraps[r] == (if top <= r <= bottom then (if r + n <= bottom then s.wraps[r + n] else wrap)
               else s.wraps[r])
  {
  }

  lemma {:induction false} ShiftDownRow(s: Screen, cols: u16, top: nat, bottom: nat, n: nat, r: nat)
    requires RegionOf(s, top, bottom) && n <= bottom + 1 - top && r < |s.cells|
    ensures var t := ShiftDown(s, cols, top, bottom, n);
            && |t.cells| == |s.cells| == |t.wraps|
            && t.cells[r] == (if top <= r <= bottom then (if r >= top + n then s.cells[r - n] else BlankRow(cols))
               else s.cells[r])
            && t.wraps[r] == (if top <= r <= bottom then (if r >= top + n then s.wraps[r - n] else Hard)
               else s.wraps[r])
  {
  }

  lemma {:induction false} MoveBlankRow(s: Screen, cols: u16, at: nat, to: nat, wrap: RowWrap, r: nat)
    requires at < |s.cells| == |s.wraps| && to < |s.cells| && r < |s.cells|
    ensures var t := MoveBlank(s, cols, at, to, wrap);
            && |t.cells| == |s.cells| == |t.wraps|
            && t.cells[r] == (if r == to then BlankRow(cols) else if at <= r < to then s.cells[r + 1]
                              else if to < r <= at then s.cells[r - 1] else s.cells[r])
            && t.wraps[r] == (if r == to then wrap else if at <= r < to then s.wraps[r + 1]
                              else if to < r <= at then s.wraps[r - 1] else s.wraps[r])
  {
    hide BlankRow;
    var cells := s.cells[..at] + s.cells[at + 1..];
    var wraps := s.wraps[..at] + s.wraps[at + 1..];
    var k := if r < to then r else r - 1;
    if r != to {
      assert cells[k] == if k < at then s.cells[k] else s.cells[k + 1];
      assert wraps[k] == if k < at then s.wraps[k] else s.wraps[k + 1];
    }
  }

  lemma {:induction false} ScreensEqual(s: Screen, t: Screen)
    requires |s.cells| == |t.cells| && |s.wraps| == |t.wraps| == |s.cells|
    requires forall r | 0 <= r < |s.cells| :: s.cells[r] == t.cells[r] && s.wraps[r] == t.wraps[r]
    ensures s == t
  {
    assert s.cells == t.cells && s.wraps == t.wraps;
  }

  // ---- the shift is the loop ----

  /** One more turn of the upward loop is one more row of shift, until the region is empty. */
  lemma {:induction false} ShiftUpOnce(s: Screen, cols: u16, top: nat, bottom: nat, n: nat, wrap: RowWrap)
    requires RegionOf(s, top, bottom) && n <= bottom + 1 - top
    ensures RegionOf(ShiftUp(s, cols, top, bottom, n, wrap), top, bottom)
    ensures MoveBlank(ShiftUp(s, cols, top, bottom, n, wrap), cols, top, bottom, wrap)
         == ShiftUp(s, cols, top, bottom, Min(n + 1, bottom + 1 - top), wrap)
  {
    hide ShiftUp, MoveBlank, BlankRow;
    var t := ShiftUp(s, cols, top, bottom, n, wrap);
    ShiftUpRow(s, cols, top, bottom, n, wrap, top);
    var m := Min(n + 1, bottom + 1 - top);
    var u := MoveBlank(t, cols, top, bottom, wrap);
    var v := ShiftUp(s, cols, top, bottom, m, wrap);
    MoveBlankRow(t, cols, top, bottom, wrap, top);
    ShiftUpRow(s, cols, top, bottom, m, wrap, top);
    forall r | 0 <= r < |u.cells| ensures u.cells[r] == v.cells[r] && u.wraps[r] == v.wraps[r] {
      MoveBlankRow(t, cols, top, bottom, wrap, r);
      ShiftUpRow(s, cols, top, bottom, n, wrap, r);
      ShiftUpRow(s, cols, top, bottom, m, wrap, r);
      if top <= r < bottom { ShiftUpRow(s, cols, top, bottom, n, wrap, r + 1); }
    }
    ScreensEqual(u, v);
  }

  lemma {:induction false} ShiftDownOnce(s: Screen, cols: u16, top: nat, bottom: nat, n: nat)
    requires RegionOf(s, top, bottom) && n <= bottom + 1 - top
    ensures RegionOf(ShiftDown(s, cols, top, bottom, n), top, bottom)
    ensures MoveBlank(ShiftDown(s, cols, top, bottom, n), cols, bottom, top, Hard)
         == ShiftDown(s, cols, top, bottom, Min(n + 1, bottom + 1 - top))
  {
    hide ShiftDown, MoveBlank, BlankRow;
    var t := ShiftDown(s, cols, top, bottom, n);
    ShiftDownRow(s, cols, top, bottom, n, top);
    var m := Min(n + 1, bottom + 1 - top);
    var u := MoveBlank(t, cols, bottom, top, Hard);
    var v := ShiftDown(s, cols, top, bottom, m);
    MoveBlankRow(t, cols, bottom, top, Hard, top);
    ShiftDownRow(s, cols, top, bottom, m, top);
    forall r | 0 <= r < |u.cells| ensures u.cells[r] == v.cells[r] && u.wraps[r] == v.wraps[r] {
      MoveBlankRow(t, cols, bottom, top, Hard, r);
      ShiftDownRow(s, cols, top, bottom, n, r);
      ShiftDownRow(s, cols, top, bottom, m, r);
      if top < r <= bottom { ShiftDownRow(s, cols, top, bottom, n, r - 1); }
    }
    ScreensEqual(u, v);
  }

  /** For every count, clamped or not, the loop computes the clamped shift. */
  lemma {:induction false} LoopUpIsShift(s: Screen, cols: u16, top: nat, bottom: nat, count: nat, wrap: RowWrap)
    requires RegionOf(s, top, bottom)
    ensures LoopUp(s, cols, top, bottom, count, wrap)
        == ShiftUp(s, cols, top, bottom, Min(count, bottom + 1 - top), wrap)
    decreases count
  {
    hide ShiftUp, MoveBlank;
    if count == 0 {
      ShiftUpNone(s, cols, top, bottom, wrap);
    } else {
      LoopUpIsShift(s, cols, top, bottom, count - 1, wrap);
      ShiftUpOnce(s, cols, top, bottom, Min(count - 1, bottom + 1 - top), wrap);
    }
  }

  lemma {:induction false} ShiftUpNone(s: Screen, cols: u16, top: nat, bottom: nat, wrap: RowWrap)
    requires RegionOf(s, top, bottom)
    ensures ShiftUp(s, cols, top, bottom, 0, wrap) == s
  {
    var t := ShiftUp(s, cols, top, bottom, 0, wrap);
    assert t.cells == s.cells && t.wraps == s.wraps;
  }

  lemma {:induction false} ShiftDownNone(s: Screen, cols: u16, top: nat, bottom: nat)
    requires RegionOf(s, top, bottom)
    ensures ShiftDown(s, cols, top, bottom, 0) == s
  {
    var t := ShiftDown(s, cols, top, bottom, 0);
    assert t.cells == s.cells && t.wraps == s.wraps;
  }

  lemma {:induction false} LoopDownIsShift(s: Screen, cols: u16, top: nat, bottom: nat, count: nat)
    requires RegionOf(s, top, bottom)
    ensures LoopDown(s, cols, top, bottom, count) == ShiftDown(s, cols, top, bottom, Min(count, bottom + 1 - top))
    decreases count
  {
    hide ShiftDown, MoveBlank;
    if count == 0 {
      ShiftDownNone(s, cols, top, bottom);
    } else {
      LoopDownIsShift(s, cols, top, bottom, count - 1);
      ShiftDownOnce(s, cols, top, bottom, Min(count - 1, bottom + 1 - top));
    }
  }

  // ---- scrollback ----

  /** `push_scrollback_row`: evict the oldest row at the limit, then append. */
  function PushOne(s: Screen, limit: nat, row: Row, wrap: RowWrap): Screen
    requires |s.cells| == |s.wraps|
  {
    if |s.cells| >= limit && |s.cells| > 0 then Screen(s.cells[1..] + [row], s.wraps[1..] + [wrap])
    else Screen(s.cells + [row], s.wraps + [wrap])
  }

  /** Pushing one by one keeps the last `limit` of everything, in order. */
  lemma {:induction false} PushOneKeepsLast(s: Screen, limit: nat, cells: seq<Row>, wraps: seq<RowWrap>, row: Row,
      wrap: RowWrap)
    requires limit > 0 && |s.cells| == |s.wraps| <= limit && |cells| == |wraps|
    ensures var t := PushScrollback(s, limit, cells, wraps);
            && |t.cells| == |t.wraps|
            && PushOne(t, limit, row, wrap) == PushScrollback(s, limit, cells + [row], wraps + [wrap])
  {
    KeepLastSnoc(s.cells, cells, limit, row);
    KeepLastSnoc(s.wraps, wraps, limit, wrap);
  }

  lemma {:induction false} KeepLastSnoc<T>(a: seq<T>, b: seq<T>, limit: nat, x: T)
    requires limit > 0 && |a| <= limit
    ensures var t := KeepLast(a + b, limit);
            KeepLast(a + (b + [x]), limit) == if |t| >= limit then t[1..] + [x] else t + [x]
  {
    var all := a + b;
    assert a + (b + [x]) == all + [x];
    if |all| >= limit {
      LastOfSnoc(all, limit, x);
    }
  }

  lemma {:induction false} LastOfSnoc<T>(s: seq<T>, n: nat, x: T)
    requires 0 < n <= |s|
    ensures (s + [x])[|s| + 1 - n..] == s[|s| - n..][1..] + [x]
  {
  }

  // ---- the events ----

  /** A region of two or more rows. */
  predicate TallRegion(g: Grid) {
    g.scrollTop < g.scrollBottom
  }

  /** SU: for every count the region is what the unclamped loop leaves, and evicted rows reach scrollback in order. */
  lemma {:induction false} ScrollUpExact(g: Grid, n: u16)
    requires Shape(g) && TallRegion(g)
    ensures var h := Step(g, ScrollUpBy(n));
            var count := Max(n, 1);
            var evicted := Min(count, g.scrollBottom - g.scrollTop + 1);
            && Active(h) == LoopUp(Active(g), g.cols, g.scrollTop, g.scrollBottom, count, Hard)
            && var was := g.history.scrollback;
            h.history.scrollback ==
                 (if !g.modes.alt && g.scrollTop == 0 && g.history.limit > 0
                  then Screen(KeepLast(was.cells + g.primary.cells[..evicted], g.history.limit),
                              KeepLast(was.wraps + g.primary.wraps[..evicted], g.history.limit))
                  else was)
  {
    hide ShiftUp, LoopUp, ScrollUp, ScreenShape;
    assert RegionOf(Active(g), g.scrollTop, g.scrollBottom) by { ActiveRegion(g); }
    LoopUpIsShift(Active(g), g.cols, g.scrollTop, g.scrollBottom, Max(n, 1), Hard);
    ScrollUpParts(g, Max(n, 1));
  }

  lemma {:induction false} ScrollUpParts(g: Grid, count: u16)
    requires Shape(g) && TallRegion(g) && RegionOf(Active(g), g.scrollTop, g.scrollBottom)
    ensures var h := ScrollUp(g, count, Hard);
            var evicted := Min(count, g.scrollBottom - g.scrollTop + 1);
            && Active(h) == ShiftUp(Active(g), g.cols, g.scrollTop, g.scrollBottom, evicted, Hard)
            && h.history.scrollback ==
                 (if !g.modes.alt && g.scrollTop == 0 && g.history.limit > 0
                  then PushScrollback(g.history.scrollback, g.history.limit, g.primary.cells[..evicted],
                      g.primary.wraps[..evicted])
                  else g.history.scrollback)
  {
    hide ShiftUp, MarkRows, PushScrollback, ScreenShape;
    var evicted := Min(count, g.scrollBottom - g.scrollTop + 1);
    if g.scrollTop == 0 && !g.modes.alt {
      assert g.primary.cells[0..0 + evicted] == g.primary.cells[..evicted];
      assert g.primary.wraps[0..0 + evicted] == g.primary.wraps[..evicted];
    }
  }

  /** The cells, margins and marks a scroll leaves, in one-row regions too. */
  lemma {:induction false} ScrollUpCells(g: Grid, count: u16, wrap: RowWrap)
    requires Shape(g)
    ensures var h := ScrollUp(g, count, wrap);
            && h.rows == g.rows && h.cols == g.cols && h.modes == g.modes
            && h.scrollTop == g.scrollTop && h.scrollBottom == g.scrollBottom
            && h.dirty == MarkRows(g.dirty, g.scrollTop, g.scrollBottom)
            && (g.scrollTop > 0 ==> h.history.scrollback == g.history.scrollback)
            && Active(h).cells ==
                 (if TallRegion(g)
                  then ShiftUp(Active(g), g.cols, g.scrollTop, g.scrollBottom,
                      Min(count, g.scrollBottom - g.scrollTop + 1), wrap).cells
                  else Active(g).cells)
  {
    hide MarkRows, Remember, ShiftUp, ScreenShape;
  }

  lemma {:induction false} ActiveRegion(g: Grid)
    requires Shape(g)
    ensures RegionOf(Active(g), g.scrollTop, g.scrollBottom)
  {
  }

  /** SD. */
  lemma {:induction false} ScrollDownExact(g: Grid, n: u16)
    requires Shape(g)
    ensures var h := Step(g, ScrollDown(n));
            && Active(h) == LoopDown(Active(g), g.cols, g.scrollTop, g.scrollBottom, Max(n, 1))
            && h.history == g.history
  {
    hide ShiftDown, LoopDown;
    LoopDownIsShift(Active(g), g.cols, g.scrollTop, g.scrollBottom, Max(n, 1));
  }

  /** IL and DL act on the rows from the cursor to the bottom margin, and only inside the margins. */
  lemma {:induction false} InsertDeleteLinesExact(g: Grid, n: u16)
    requires Shape(g)
    ensures var inside := g.scrollTop <= g.row <= g.scrollBottom;
            && (inside ==>
                  Active(Step(g, InsertLines(n))) == LoopDown(Active(g), g.cols, g.row, g.scrollBottom, Max(n, 1)))
            && (inside ==>
                  Active(Step(g, DeleteLines(n))) == LoopUp(Active(g), g.cols, g.row, g.scrollBottom, Max(n, 1), Hard))
            && (!inside ==> Step(g, InsertLines(n)) == g && Step(g, DeleteLines(n)) == g)
            && Step(g, InsertLines(n)).history == g.history && Step(g, DeleteLines(n)).history == g.history
  {
    hide ShiftDown, LoopDown, ShiftUp, LoopUp;
    if g.scrollTop <= g.row <= g.scrollBottom {
      LoopDownIsShift(Active(g), g.cols, g.row, g.scrollBottom, Max(n, 1));
      LoopUpIsShift(Active(g), g.cols, g.row, g.scrollBottom, Max(n, 1), Hard);
    }
  }

  /** RI: one row down at the top margin, otherwise a cursor move. */
  lemma {:induction false} ReverseIndexExact(g: Grid)
    requires Shape(g)
    ensures var h := Step(g, ReverseLine);
            && Active(h) == (if g.row == g.scrollTop then LoopDown(Active(g), g.cols, g.scrollTop, g.scrollBottom, 1)
               else Active(g))
            && h.history == g.history
            && h.row == (if g.row == g.scrollTop then g.row else SatSub(g.row, 1))
  {
    hide ShiftDown, LoopDown;
    LoopDownIsShift(Active(g), g.cols, g.scrollTop, g.scrollBottom, 1);
  }
}
