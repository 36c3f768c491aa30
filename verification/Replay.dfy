/** What each serialized token does to the grid that replays it. */
module Replay {
  import opened Basics
  import opened Cells
  import opened Rows
  import opened Damage
  import opened GridModel
  import opened Invariant
  import opened Serialize
  import Sgr

  // ---- runs ----

  lemma {:induction false} RunSplit(g: Grid, a: seq<Event>, b: seq<Event>)
    requires Shape(g) && EventsOk(a) && EventsOk(b)
    ensures EventsOk(a + b)
    ensures Run(g, a + b) == Run(Run(g, a), b)
    decreases |a|
  {
    if a == [] {
      assert a + b == b;
    } else {
      assert (a + b)[1..] == a[1..] + b;
      assert (a + b)[0] == a[0];
      RunSplit(Step(g, a[0]), a[1..], b);
    }
  }

  lemma {:induction false} RunKeepsProfile(g: Grid, es: seq<Event>)
    requires Shape(g) && EventsOk(es)
    ensures Run(g, es).profile == g.profile
    decreases |es|
  {
    hide Step, Shape;
    if es != [] { RunKeepsProfile(Step(g, es[0]), es[1..]); }
  }

  lemma {:induction false} RunNothing(r: Grid)
    requires Shape(r)
    ensures Run(r, []) == r
  {
  }

  lemma {:induction false} RunOne(g: Grid, e: Event)
    requires Shape(g) && EventOk(e)
    ensures Run(g, [e]) == Step(g, e)
  {
    assert [e][1..] == [];
  }

  // ---- the relation kept while painting ----

  /** A replay grid that row painting can rely on: well formed, whole-screen region, autowrap on. */
  predicate Canvas(r: Grid) {
    WF(r) && r.scrollTop == 0 && r.scrollBottom == r.rows - 1 && !r.modes.noAutowrap
  }

  /** Everything of the replay contract that painting leaves alone. */
  ghost predicate SameSetup(r: Grid, s: Grid) {
    && s.rows == r.rows && s.cols == r.cols && s.profile == r.profile
    && s.modes == r.modes && s.mouseMode == r.mouseMode && s.mouseEncoding == r.mouseEncoding
    && s.cursorStyle == r.cursorStyle
    && s.scrollTop == r.scrollTop && s.scrollBottom == r.scrollBottom
  }

  function Vis(r: Grid): seq<Row> {
    Active(r).cells
  }

  /** The replay cursor and pen are where the writer's bookkeeping says. */
  predicate Tracks(r: Grid, pos: Pos, attrs: Attrs) {
    Canvas(r) && r.row == pos.row && r.col == pos.col && r.pen == attrs
  }

  /** `s` is `r` with row `row` repainted as `cells`, nothing else of the contract touched. */
  ghost predicate Repainted(r: Grid, s: Grid, row: nat, cells: Row) {
    SameSetup(r, s) && row < |Vis(r)| && Vis(s) == Vis(r)[row := cells]
  }

  // ---- moves ----

  lemma {:induction false} StepMove(r: Grid, m: Move)
    requires Canvas(r)
    ensures var s := Step(r, Cursor(m));
            && Canvas(s) && SameSetup(r, s) && Vis(s) == Vis(r) && s.pen == r.pen && s.lastPrint == None
            && s.row == RowAfter(m, r.row, r.rows)
            && s.col == ColAfter(m, if r.col >= r.cols then r.cols - 1 else r.col, r.cols)
  {
    StepKeeps(r, Cursor(m));
    hide RowAfter, ColAfter, ScreenOk, ScreenShape;
  }

  lemma {:induction false} RunMoveTo(r: Grid, pos: Pos)
    requires Canvas(r) && pos.row < r.rows && pos.col < r.cols
    ensures var s := Run(r, MoveTo(pos));
            Tracks(s, pos, r.pen) && SameSetup(r, s) && Vis(s) == Vis(r) && s.lastPrint == None
  {
    var m := if pos.row == 0 && pos.col == 0 then To(0, 0) else To(pos.row + 1, pos.col + 1);
    RunOne(r, Cursor(m));
    StepMove(r, m);
  }

  lemma {:induction false} StepReturn(r: Grid)
    requires Canvas(r)
    ensures var s := Step(r, Control(0x0d));
            && Canvas(s) && SameSetup(r, s) && Vis(s) == Vis(r) && s.pen == r.pen && s.lastPrint == None
            && s.row == r.row && s.col == 0
  {
    StepKeeps(r, Control(0x0d));
    hide ScreenOk, ScreenShape;
  }

  lemma {:induction false} StepLineFeed(r: Grid)
    requires Canvas(r) && r.row + 1 < r.rows && r.col == 0
    ensures var s := Step(r, Control(0x0a));
            && Canvas(s) && SameSetup(r, s) && Vis(s) == Vis(r) && s.pen == r.pen && s.lastPrint == None
            && s.row == r.row + 1 && s.col == 0
  {
    StepKeeps(r, Control(0x0a));
    hide ScreenOk, ScreenShape, ScrollUp;
  }

  lemma {:induction false} RunMoveFromTo(r: Grid, from: Pos, to: Pos)
    requires Tracks(r, from, r.pen) && to.row < r.rows && to.col < r.cols
    ensures var s := Run(r, MoveFromTo(from, to));
            && Tracks(s, to, r.pen) && SameSetup(r, s) && Vis(s) == Vis(r)
            && (from != to ==> s.lastPrint == None) && (from == to ==> s == r)
  {
    if to.row == from.row + 1 && to.col == 0 {
      var es := [Control(0x0d), Control(0x0a)];
      assert es == [Control(0x0d)] + [Control(0x0a)];
      RunSplit(r, [Control(0x0d)], [Control(0x0a)]);
      RunOne(r, Control(0x0d));
      StepReturn(r);
      var s := Step(r, Control(0x0d));
      RunOne(s, Control(0x0a));
      StepLineFeed(s);
    } else if from.row == to.row && from.col < to.col {
      var m := Forward(if to.col - from.col == 1 then 0 else to.col - from.col);
      RunOne(r, Cursor(m));
      StepMove(r, m);
    } else if to != from {
      RunMoveTo(r, to);
    }
  }

  // ---- pen ----

  lemma {:induction false} RunAttrsTo(r: Grid, target: Attrs)
    requires WF(r)
    ensures Run(r, AttrsTo(target, r.pen)) == r.(pen := target)
    ensures WF(r.(pen := target))
  {
    hide Sgr.AttrsDiff, Sgr.ApplySgr, ScreenOk, ScreenShape;
    Sgr.SgrRoundTrip(target, r.pen);
    match Sgr.AttrsDiff(target, r.pen) {
      case None =>
      case Some(ps) => RunOne(r, Graphics(ps));
    }
  }

  // ---- erases ----

  lemma {:induction false} StepErase(r: Grid, n: u16)
    requires Canvas(r) && r.col < r.cols
    ensures var s := Step(r, EraseCharacters(n));
            var end := Min(r.col + Max(n, 1), r.cols);
            && Canvas(s) && s.row == r.row && s.col == r.col && s.pen == r.pen && s.lastPrint == r.lastPrint
            && s.savedRow == r.savedRow && s.savedCol == r.savedCol
            && Repainted(r, s, r.row, EraseCells(ActiveRow(r), r.col, end, BlankCell(r.pen.background)))
  {
    hide ScreenOk, EraseCells, MarkRange, WithActiveRow;
    StepKeeps(r, EraseCharacters(n));
    var end := Min(r.col + Max(n, 1), r.cols);
    WithActiveRowFrame(r, EraseCells(ActiveRow(r), r.col, end, PenBlank(r)));
  }

  lemma {:induction false} RunEraseCount(r: Grid, n: u16)
    requires Canvas(r) && r.col < r.cols && 1 <= n && r.col + n <= r.cols
    ensures var s := Run(r, EraseCount(n));
            && Canvas(s) && s.row == r.row && s.col == r.col && s.pen == r.pen
            && Repainted(r, s, r.row, EraseCells(ActiveRow(r), r.col, r.col + n, BlankCell(r.pen.background)))
  {
    hide Step, ScreenOk, ScreenShape, EraseCells, Run, SameSetup;
    var e := EraseCharacters(if n == 1 then 0 else n);
    assert EraseCount(n) == [e];
    RunOne(r, e);
    StepErase(r, e.n);
  }

  lemma {:induction false} RunEraseLine(r: Grid)
    requires Canvas(r) && r.col < r.cols
    ensures var s := Run(r, [EraseInLine(0)]);
            && Canvas(s) && s.row == r.row && s.col == r.col && s.pen == r.pen
            && Repainted(r, s, r.row, EraseCells(ActiveRow(r), r.col, r.cols, BlankCell(r.pen.background)))
  {
    hide ScreenOk, EraseCells, MarkRange, WithActiveRow, Run;
    RunOne(r, EraseInLine(0));
    StepKeeps(r, EraseInLine(0));
    WithActiveRowFrame(r, EraseCells(ActiveRow(r), r.col, r.cols, PenBlank(r)));
  }

  // ---- printing a glyph ----

  /** No printable of positive width would join a cluster here. */
  predicate NoJoin(r: Grid)
    requires Shape(r)
  {
    || r.lastPrint != Some((r.row, r.col))
    || (match JoinTarget(r)
        case None => true
        case Some(target) => !EndsWithZwj(ActiveRow(r)[LeadOf(ActiveRow(r), target)].contents))
  }

  /** A print lands at `pos`: the cursor is there, or the deferred wrap carries it there. */
  predicate PrintsAt(r: Grid, pos: Pos) {
    && Canvas(r) && NoJoin(r) && pos.row < r.rows && pos.col < r.cols
    && if r.col < r.cols then r.row == pos.row && r.col == pos.col
       else r.row + 1 == pos.row && pos.col == 0
  }

  function Glyph(r: Grid, ch: char): Cell {
    Cell([ch], r.profile.charWidth(ch) > 1, false, r.pen, r.activeLink)
  }

  lemma {:induction false} PutCharEffect(r: Grid, ch: char)
    requires Shape(r) && r.col < r.cols && r.profile.charWidth(ch) >= 1
    ensures var w := r.profile.charWidth(ch);
            var s := PutChar(r, ch, w);
            && Repainted(r, s, r.row, PutGlyph(ActiveRow(r), r.col, Glyph(r, ch)))
            && s.row == r.row && s.col == Min(r.col + w, r.cols) && s.pen == r.pen
            && s.activeLink == r.activeLink && s.lastPrint == Some((s.row, s.col))
  {
    hide MarkRange, PutGlyph, PutStart, PutEnd, WithActiveRow;
    WithActiveRowFrame(r, PutGlyph(ActiveRow(r), r.col, Glyph(r, ch)));
  }

  lemma {:induction false} NoJoinNoAppend(r: Grid, ch: char)
    requires Shape(r) && NoJoin(r) && r.profile.charWidth(ch) >= 1
    ensures Append(r, ch, r.profile.charWidth(ch)).None?
  {
    hide ExtendCluster;
  }

  /** A newline above the bottom row just moves down. */
  lemma {:induction false} NewlineEffect(r: Grid)
    requires Shape(r) && r.row + 1 < r.rows && r.scrollBottom == r.rows - 1
    ensures var s := Newline(r, Soft);
            && SameSetup(r, s) && Vis(s) == Vis(r) && s.row == r.row + 1 && s.col == r.col && s.pen == r.pen
            && s.activeLink == r.activeLink && s.pendingWrap == r.pendingWrap
  {
    hide ScrollUp, ScreenShape;
  }

  lemma {:induction false} StepPrint(r: Grid, ch: char, pos: Pos)
    requires PrintsAt(r, pos) && r.profile.charWidth(ch) >= 1
    ensures var w := r.profile.charWidth(ch);
            var s := Step(r, Print(ch));
            && Canvas(s) && s.row == pos.row && s.col == Min(pos.col + w, r.cols) && s.pen == r.pen
            && s.activeLink == r.activeLink && s.lastPrint == Some((s.row, s.col))
            && Repainted(r, s, pos.row, PutGlyph(Vis(r)[pos.row], pos.col, Glyph(r, ch)))
  {
    hide PutChar, Append, Newline, PutGlyph, ScreenOk, ScreenShape;
    StepKeeps(r, Print(ch));
    var w := r.profile.charWidth(ch);
    var r0 := Touch(r);
    NoJoinNoAppend(r0, ch);
    if r.col < r.cols {
      PutCharEffect(r0, ch);
    } else {
      var r1 := r0.(pendingWrap := false, col := 0);
      NewlineEffect(r1);
      PutCharEffect(Newline(r1, Soft), ch);
    }
  }
}
