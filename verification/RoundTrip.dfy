/** Full-paint round trip: replaying `state_formatted` rebuilds the state. */
module RoundTrip {
  import opened Basics
  import opened Cells
  import opened Rows
  import opened GridModel
  import opened Invariant
  import opened Serialize
  import opened Replay
  import opened Erasing
  import opened Painting
  import opened FullPaintProof
  import opened CursorProof
  import opened ModesProof
  import Sgr

  /** Well formed, with lead and continuation attributes paired on the screen the writers read. */
  predicate Paintable(g: Grid) {
    WF(g) && ScreenAttrs(Active(g))
  }

  ghost predicate SameCanvas(g: Grid, r: Grid) {
    r.rows == g.rows && r.cols == g.cols && r.profile == g.profile
  }

  /** Rows above `row` are painted, the others cleared, and the bookkeeping is in step. */
  ghost predicate RowsInv(g: Grid, r0: Grid, r: Grid, row: nat, out: seq<Event>, pos: Pos, attrs: Attrs) {
    && Shape(r0) && EventsOk(out) && r == Run(r0, out) && Tracks(r, pos, attrs)
    && SameCanvas(g, r) && row <= g.rows && |Vis(g)| == |Vis(r)| == g.rows
    && (forall i | 0 <= i < row :: RowLooksLike(Vis(r)[i], Vis(g)[i]))
    && (forall i | row <= i < g.rows :: Vis(r)[i] == BlankRow(g.cols))
  }

  lemma {:induction false} TargetRowAt(g: Grid, row: nat)
    requires Paintable(g) && row < g.rows
    ensures TargetRow(CtxAt(g, row)) && CtxAt(g, row).cells == Vis(g)[row] && CtxAt(g, row).row == row
    ensures row < |Vis(g)| == g.rows && |Vis(g)[row]| == g.cols
    ensures row > 0 ==> CtxAt(g, row).prevRow == Some(Vis(g)[row - 1])
    ensures CtxAt(g, row).profile == g.profile
  {
  }

  lemma {:induction false} RowsInvReady(g: Grid, r0: Grid, r: Grid, row: nat, out: seq<Event>, pos: Pos, attrs: Attrs)
    requires Paintable(g) && RowsInv(g, r0, r, row, out, pos, attrs) && row < g.rows
    ensures ReadyForRow(r0, r, CtxAt(g, row), out, pos, attrs)
  {
    TargetRowAt(g, row);
    assert Shape(r);
    hide Shape, Run, EventsOk, WF, ScreenAttrs, CtxAt, TargetRow, Canvas;
  }

  lemma {:induction false} FormatRowsStep(g: Grid, r0: Grid, r: Grid, row: nat, out: seq<Event>, pos: Pos, attrs: Attrs)
    requires Paintable(g) && RowsInv(g, r0, r, row, out, pos, attrs) && row < g.rows
    ensures var t := FormatRow(CtxAt(g, row), out, pos, attrs);
            var s := Run(r0, t.out);
            RowsInv(g, r0, s, row + 1, t.out, t.pos, t.attrs) && SameSetup(r, s)
  {
    var ctx := CtxAt(g, row);
    TargetRowAt(g, row);
    RowsInvReady(g, r0, r, row, out, pos, attrs);
    hide FormatRow, Run, EventsOk, WF, ScreenAttrs, CtxAt, TargetRow, Shape, ReadyForRow;
    FormatRowEffect(r0, r, ctx, out, pos, attrs);
  }

  lemma {:induction false} RowsInvFacts(g: Grid, r0: Grid, r: Grid, row: nat, out: seq<Event>, pos: Pos, attrs: Attrs)
    requires Paintable(g) && RowsInv(g, r0, r, row, out, pos, attrs)
    ensures Shape(g) && Shape(r0) && EventsOk(out) && r == Run(r0, out) && row <= g.rows && SameSetup(r, r)
  {
    hide Run, ScreenOk, ScreenShape, ScreenAttrs, EventsOk, RowLooksLike;
  }

  lemma {:induction false} SetupCarries(a: Grid, b: Grid, c: Grid)
    ensures SameSetup(a, b) && SameSetup(b, c) ==> SameSetup(a, c)
  {
  }

  lemma {:induction false} FormatRowsEffect(g: Grid, r0: Grid, r: Grid, row: nat, out: seq<Event>, pos: Pos,
      attrs: Attrs)
    requires Paintable(g) && RowsInv(g, r0, r, row, out, pos, attrs)
    ensures var t := FormatRows(g, row, out, pos, attrs);
            var s := Run(r0, t.out);
            RowsInv(g, r0, s, g.rows, t.out, t.pos, t.attrs) && SameSetup(r, s)
    decreases g.rows - row
  {
    hide FormatRow, Run, RowsInv, CtxAt, Paintable, Shape, EventsOk, SameSetup;
    RowsInvFacts(g, r0, r, row, out, pos, attrs);
    if row < g.rows {
      FormatRowsStep(g, r0, r, row, out, pos, attrs);
      var t := FormatRow(CtxAt(g, row), out, pos, attrs);
      SetupCarries(r, Run(r0, t.out), Run(r0, FormatRows(g, row + 1, t.out, t.pos, t.attrs).out));
      FormatRowsEffect(g, r0, Run(r0, t.out), row + 1, t.out, t.pos, t.attrs);
    }
  }

  // ---- the clear ----

  lemma {:induction false} EraseWholeRow(row: Row, blank: Cell)
    ensures EraseCells(row, 0, |row|, blank) == Repeat(blank, |row|)
  {
    hide EraseCells;
  }

  lemma {:induction false} ClearHomeRows(r: Grid)
    requires WF(r) && r.row == 0 && r.col == 0 && r.pen == DEFAULT_ATTRS
    ensures var s := EraseDisplay(r, 0);
            && SameSetup(r, s) && s.row == 0 && s.col == 0 && s.pen == r.pen
            && |Vis(s)| == r.rows && forall i | 0 <= i < r.rows :: Vis(s)[i] == BlankRow(r.cols)
  {
    hide Preserve, EraseCells, WithActiveRow, BlankRows, ScreenOk, ScreenShape, BlankRow, PenBlankRow;
    PreserveFrame(r);
    var r1 := Preserve(r);
    var blank := EraseCells(ActiveRow(r1), 0, r1.cols, PenBlank(r1));
    EraseWholeRow(ActiveRow(r1), PenBlank(r1));
    WithActiveRowFrame(r1, blank);
    var r2 := WithActiveRow(r1, blank);
    RowsOf(r1, 0);
    assert PenBlankRow(r2) == BlankRow(r.cols) && blank == BlankRow(r.cols) by { DefaultPenRow(r2, blank); }
    forall i | 0 <= i < r.rows ensures |Vis(EraseDisplay(r, 0))| == r.rows
        && Vis(EraseDisplay(r, 0))[i] == BlankRow(r.cols) {
      BlankRowsCell(r2, 1, r2.rows, i);
    }
    BlankRowsCell(r2, 1, r2.rows, 0);
  }

  lemma {:induction false} DefaultPenRow(g: Grid, row: Row)
    requires g.pen == DEFAULT_ATTRS && row == Repeat(PenBlank(g), g.cols)
    ensures PenBlankRow(g) == BlankRow(g.cols) == row
  {
  }

  lemma {:induction false} StepClearHome(r: Grid)
    requires Canvas(r) && r.row == 0 && r.col == 0 && r.pen == DEFAULT_ATTRS
    ensures var s := Step(r, EraseInDisplay(0));
            && Tracks(s, Pos(0, 0), DEFAULT_ATTRS) && SameSetup(r, s)
            && |Vis(s)| == r.rows && forall i | 0 <= i < r.rows :: Vis(s)[i] == BlankRow(r.cols)
  {
    hide EraseDisplay, ScreenOk, ScreenShape, BlankRow;
    StepKeeps(r, EraseInDisplay(0));
    ClearHomeRows(r);
  }

  lemma {:induction false} RunClear(r: Grid)
    requires Canvas(r)
    ensures EventsOk(CLEAR)
    ensures var s := Run(r, CLEAR);
            && Tracks(s, Pos(0, 0), DEFAULT_ATTRS) && SameSetup(r, s)
            && |Vis(s)| == r.rows && forall i | 0 <= i < r.rows :: Vis(s)[i] == BlankRow(r.cols)
  {
    var r1 := Step(r, Graphics([[0]]));
    assert r1 == r.(pen := DEFAULT_ATTRS) by { Sgr.SgrRoundTrip(DEFAULT_ATTRS, r.pen); ResetPen(r.pen); }
    assert Canvas(r1) by { hide ScreenOk, ScreenShape; }
    assert Shape(r);
    hide Step, Run, WF;
    StepMove(r1, To(0, 0));
    var r2 := Step(r1, Cursor(To(0, 0)));
    StepClearHome(r2);
    RunThree(r, Graphics([[0]]), Cursor(To(0, 0)), EraseInDisplay(0));
  }

  lemma {:induction false} ResetPen(a: Attrs)
    ensures Sgr.ApplySgr([[0]], a) == DEFAULT_ATTRS
  {
    assert [[0]] == [[0]] + [];
    Sgr.ApplyOne([0], [], a);
  }

  // ---- rows, then cursor, then pen ----

  /** The visible half of the contract. */
  predicate PictureEq(a: Grid, b: Grid) {
    RowsLookAlike(Vis(a), Vis(b)) && a.row == b.row && a.col == b.col && a.pen == b.pen
  }

  lemma {:induction false} RestoreCursorEffect(g: Grid, r: Grid, pos: Pos, attrs: Attrs)
    requires Paintable(g) && SameCanvas(g, r) && Tracks(r, pos, attrs) && RowsLookAlike(Vis(r), Vis(g))
    ensures var es := CursorRestore(Vis(g), Pos(g.row, g.col), g.cols, pos, attrs);
            var s := Run(r, es);
            Tracks(s, Pos(g.row, g.col), attrs) && SameSetup(r, s) && RowsLookAlike(Vis(s), Vis(g))
  {
    var cells := Vis(g)[g.row];
    assert Settled(r, g.row, cells) by {
      assert RowOk(g.profile, cells) && AttrsPaired(cells);
      hide RowOk, AttrsPaired;
    }
    hide Run, CursorRestore, Settled, WF, ScreenAttrs;
    RunCursorRestore(r, Vis(g), Pos(g.row, g.col), pos);
  }

  lemma {:induction false} RowsThenCursorEffect(g: Grid, r0: Grid, r: Grid, st: Painter)
    requires Paintable(g) && SameCanvas(g, r) && InStep(r0, r, st) && RowsLookAlike(Vis(r), Vis(g))
    ensures g.row < U16_MAX
    ensures var s := Run(r0, RowsThenCursor(g, st));
            Canvas(s) && SameSetup(r, s) && PictureEq(s, g)
  {
    assert Shape(g);
    var cursor := CursorRestore(Vis(g), Pos(g.row, g.col), g.cols, st.pos, st.attrs);
    var sgr := AttrsTo(g.pen, st.attrs);
    hide Run, CursorRestore, AttrsTo, EventsOk, WF, ScreenAttrs, Shape, RowsLookAlike;
    RestoreCursorEffect(g, r, st.pos, st.attrs);
    var r1 := Run(r, cursor);
    Extend(r0, r, st.out, cursor);
    RunAttrsTo(r1, g.pen);
    PenKeepsTracks(r1, Pos(g.row, g.col), g.pen);
    Extend(r0, r1, st.out + cursor, sgr);
  }

  /** A full paint makes the visible picture of any canvas equal to the target's, whatever it showed before. */
  lemma {:induction false} FullPaintEffect(g: Grid, r: Grid)
    requires Paintable(g) && SameCanvas(g, r) && Canvas(r)
    ensures var s := Run(r, FullPaint(g));
            Canvas(s) && SameSetup(r, s) && PictureEq(s, g)
  {
    RunClear(r);
    var r1 := Run(r, CLEAR);
    assert |Vis(g)| == g.rows && Shape(r);
    assert RowsInv(g, r, r1, 0, CLEAR, Pos(0, 0), DEFAULT_ATTRS) by { hide WF, ScreenAttrs, BlankRow, Run, EventsOk; }
    hide WF, ScreenAttrs, Run, EventsOk, FormatRows, BlankRow, Shape;
    FormatRowsEffect(g, r, r1, 0, CLEAR, Pos(0, 0), DEFAULT_ATTRS);
    var st := FormatRows(g, 0, CLEAR, Pos(0, 0), DEFAULT_ATTRS);
    var r2 := Run(r, st.out);
    assert RowsLookAlike(Vis(r2), Vis(g));
    hide RowsThenCursor, RowsInv, RowsLookAlike;
    RowsThenCursorEffect(g, r, r2, st);
  }

  // ---- the DECAWM sandwich ----

  /** Autowrap on and visibility as wanted: a canvas that still shows what it showed. */
  lemma {:induction false} RunPaintPrefix(r: Grid, g: Grid, hide25: seq<Event>)
    requires HomeRegion(r) && Configured(SettingsOf(r), g)
    requires hide25 == Mode(25, !g.modes.hideCursor) || hide25 == []
    ensures EventsOk(Mode(7, true) + hide25)
    ensures var s := Run(r, Mode(7, true) + hide25);
            && Canvas(s) && SamePicture(r, s)
            && SettingsOf(s) == SettingsOf(r).(modes := r.modes.(noAutowrap := false))
  {
    var c := SettingsOf(r);
    var d := c.(modes := c.modes.(noAutowrap := false));
    AutowrapConfigures(c, true, true);
    VisibilityConfigures(d, !g.modes.hideCursor, true);
    assert AllConfig(hide25) && ConfigureAll(d, hide25) == d;
    hide AllConfig, ConfigureAll, Mode, Run, EventsOk;
    ConfigureSplit(c, Mode(7, true), hide25);
    RunConfig(r, Mode(7, true) + hide25);
  }

  lemma {:induction false} RunAutowrapTail(r: Grid, g: Grid)
    requires Canvas(r)
    ensures var s := Run(r, AutowrapTail(g));
            && HomeRegion(s) && SamePicture(r, s)
            && SettingsOf(s) == SettingsOf(r).(modes := r.modes.(noAutowrap := g.modes.noAutowrap))
  {
    var c := SettingsOf(r);
    AutowrapConfigures(c, false, true);
    assert AllConfig(AutowrapTail(g));
    assert ConfigureAll(c, AutowrapTail(g)) == c.(modes := c.modes.(noAutowrap := g.modes.noAutowrap));
    hide AllConfig, ConfigureAll, AutowrapTail, Run, EventsOk;
    RunConfig(r, AutowrapTail(g));
  }

  lemma {:induction false} PictureAndSettings(s: Grid, g: Grid)
    requires s.rows == g.rows && s.cols == g.cols && PictureEq(s, g) && Configured(SettingsOf(s), g)
    ensures StateEq(s, g)
  {
  }

  /** A painting that draws the picture, wrapped in the prefix and the tail, gives the whole state. */
  lemma {:induction false} Sandwich(r: Grid, g: Grid, pre: seq<Event>, paint: seq<Event>)
    requires HomeRegion(r) && SameCanvas(g, r) && Configured(SettingsOf(r), g)
    requires EventsOk(pre) && EventsOk(paint)
    requires var m := Run(r, pre);
             && Canvas(m) && SamePicture(r, m)
             && SettingsOf(m) == SettingsOf(r).(modes := r.modes.(noAutowrap := false))
    requires var m := Run(r, pre);
             var n := Run(m, paint);
             Canvas(n) && SameSetup(m, n) && PictureEq(n, g)
    ensures EventsOk(pre + paint + AutowrapTail(g))
    ensures var s := Run(r, pre + paint + AutowrapTail(g));
            HomeRegion(s) && StateEq(s, g)
  {
    assert Shape(r);
    hide Run, EventsOk, AutowrapTail, WF, MouseModeNumber, MouseEncodingNumber, RowsLookAlike;
    var m := Run(r, pre);
    var n := Run(m, paint);
    RunAutowrapTail(n, g);
    RunSplit(r, pre, paint);
    RunSplit(r, pre + paint, AutowrapTail(g));
    PictureAndSettings(Run(n, AutowrapTail(g)), g);
  }

  lemma {:induction false} RunContentsFormatted(r: Grid, g: Grid)
    requires Paintable(g) && HomeRegion(r) && SameCanvas(g, r) && Configured(SettingsOf(r), g)
    ensures var s := Run(r, ContentsFormatted(g)); HomeRegion(s) && StateEq(s, g)
  {
    var pre := Mode(7, true) + Mode(25, !g.modes.hideCursor);
    RunPaintPrefix(r, g, Mode(25, !g.modes.hideCursor));
    hide Run, EventsOk, Mode, FullPaint, AutowrapTail, StateEq, PictureEq;
    FullPaintEffect(g, Run(r, pre));
    Sandwich(r, g, pre, FullPaint(g));
  }

  /**
    * Full-paint round trip: replaying `state_formatted` of any well-formed state into a fresh grid of the same size
    * gives a grid that is `state_eq` to it.
    */
  lemma {:induction false} FullPaintRoundTrip(g: Grid, limit: nat)
    requires Paintable(g)
    ensures var fresh' := Fresh(g.profile, g.rows, g.cols, limit);
            var s := Run(fresh', StateFormatted(g));
            HomeRegion(s) && StateEq(s, g)
  {
    var f := Fresh(g.profile, g.rows, g.cols, limit);
    FreshIsWF(g.profile, g.rows, g.cols, limit);
    assert HomeRegion(f);
    assert Shape(f);
    hide Run, InputModeFormatted, ContentsFormatted, EventsOk, HomeRegion, StateEq, WF;
    RunInputFormatted(f, g);
    var r := Run(f, InputModeFormatted(g));
    RunContentsFormatted(r, g);
    RunSplit(f, InputModeFormatted(g), ContentsFormatted(g));
  }
}
