/** Exactly which states survive serialization and replay, and what the replay shows of the others. */
module ExactTrip {
  import opened Basics
  import opened Cells
  import opened Rows
  import opened GridModel
  import opened Invariant
  import opened Serialize
  import opened Replay
  import opened ModesProof
  import opened RoundTrip
  import opened CursorProof
  import opened DiffProof
  import opened NormalForm
  import Damage
  import Sgr

  // ---- a replay shows the normal form ----

  lemma {:induction false} LooksNormalIff(row: Row)
    ensures RowLooksLike(NormRow(row), row) <==> AttrsPaired(row)
  {
    var n := NormRow(row);
    if RowLooksLike(n, row) {
      forall i | 0 < i < |row| && row[i].cont ensures row[i].attrs == row[i - 1].attrs {
        assert SameLook(n[i], row[i]);
      }
    }
  }

  lemma {:induction false} RowsLookNormalIff(rows: seq<Row>)
    ensures RowsLookAlike(NormRows(rows), rows) <==> forall r | 0 <= r < |rows| :: AttrsPaired(rows[r])
  {
    hide NormRow, RowLooksLike, AttrsPaired;
    forall r | 0 <= r < |rows| ensures RowLooksLike(NormRows(rows)[r], rows[r]) <==> AttrsPaired(rows[r]) {
      LooksNormalIff(rows[r]);
    }
  }

  lemma {:induction false} LooksCompose(a: seq<Row>, b: seq<Row>, c: seq<Row>)
    requires RowsLookAlike(a, b)
    ensures RowsLookAlike(a, c) <==> RowsLookAlike(b, c)
  {
    forall r | 0 <= r < |a| && |a| == |c| ensures RowLooksLike(a[r], c[r]) <==> RowLooksLike(b[r], c[r]) {
      RowLooksCompose(a[r], b[r], c[r]);
    }
    hide RowLooksLike;
  }

  lemma {:induction false} RowLooksCompose(a: Row, b: Row, c: Row)
    requires RowLooksLike(a, b)
    ensures RowLooksLike(a, c) <==> RowLooksLike(b, c)
  {
  }

  /** What shows a state's normal form shows the state itself exactly when no visible pair is glued. */
  lemma {:induction false} ShowsNormIff(s: Grid, g: Grid)
    requires WF(g) && StateEq(s, Norm(g))
    ensures StateEq(s, g) <==> ScreenAttrs(Active(g))
  {
    hide NormRows, RowsLookAlike, AttrsPaired, MouseModeNumber, MouseEncodingNumber, ScreenOk, ScreenShape;
    NormIsWF(g);
    NormFrame(g);
    RowsLookNormalIff(Active(g).cells);
    LooksCompose(Active(s).cells, Active(Norm(g)).cells, Active(g).cells);
  }

  /** Every well-formed state, glued pairs or not: replaying `state_formatted` shows its normal form. */
  lemma {:induction false} FormattedShowsNorm(g: Grid, limit: nat)
    requires WF(g)
    ensures var s := Run(Fresh(g.profile, g.rows, g.cols, limit), StateFormatted(g));
            HomeRegion(s) && StateEq(s, Norm(g)) && s.profile == g.profile
  {
    hide Run, StateFormatted, StateEq, HomeRegion, NormRows, ScreenOk, ScreenShape, ScreenAttrs;
    NormIsWF(g);
    NormFrame(g);
    FormattedIgnoresGlue(g);
    FullPaintRoundTrip(Norm(g), limit);
    RunKeepsProfile(Fresh(g.profile, g.rows, g.cols, limit), StateFormatted(g));
  }

  /**
    * A diff between any two well-formed states, on a replay that shows the first one's normal form, shows the second
    * one's.
    */
  lemma {:induction false} DiffShowsNorm(g: Grid, prev: Grid, r: Grid)
    requires WF(g) && WF(prev) && NarrowBaseStaysWide(g.profile)
    requires g.rows == prev.rows && g.cols == prev.cols && g.profile == prev.profile == r.profile
    requires HomeRegion(r) && StateEq(r, Norm(prev))
    ensures var s := Run(r, StateDiff(g, prev)); HomeRegion(s) && StateEq(s, Norm(g)) && s.profile == g.profile
  {
    hide Run, StateDiff, StateEq, NormRows, ScreenOk, ScreenShape, ScreenAttrs, NarrowBaseStaysWide;
    NormIsWF(g);
    NormIsWF(prev);
    NormFrame(g);
    NormFrame(prev);
    DiffIgnoresGlue(g, prev);
    DiffRoundTrip(Norm(g), Norm(prev), r);
    RunKeepsProfile(r, StateDiff(g, prev));
  }

  // ---- the exact conditions ----

  /**
    * Full-paint round trip, exactly: for every well-formed state, replaying `state_formatted` into a fresh grid of the
    * same size rebuilds the state if and only if no visible continuation differs in attributes from its lead.
    */
  lemma {:induction false} FullPaintRoundTripIff(g: Grid, limit: nat)
    requires WF(g)
    ensures StateEq(Run(Fresh(g.profile, g.rows, g.cols, limit), StateFormatted(g)), g) <==> ScreenAttrs(Active(g))
  {
    hide Run, StateFormatted, StateEq, ScreenOk, ScreenShape, ScreenAttrs;
    FormattedShowsNorm(g, limit);
    ShowsNormIff(Run(Fresh(g.profile, g.rows, g.cols, limit), StateFormatted(g)), g);
  }

  /** The same for the state after any events at all from a fresh grid. */
  lemma {:induction false} ReachableStatesRoundTrip(p: Profile, rows: u16, cols: u16, limit: nat, es: seq<Event>)
    requires rows >= 1 && 1 <= cols <= MAX_COLS && EventsOk(es)
    ensures var g := Run(Fresh(p, rows, cols, limit), es);
            && (StateEq(Run(Fresh(g.profile, g.rows, g.cols, limit), StateFormatted(g)), g) <==> ScreenAttrs(Active(g)))
            && (NeverMixes(Fresh(p, rows, cols, limit), es) ==> ScreenAttrs(Active(g)))
  {
    hide Run, StateFormatted, StateEq, ScreenOk, ScreenShape, ScreenAttrs, NeverMixes, EventsOk;
    var f := Fresh(p, rows, cols, limit);
    FreshIsWF(p, rows, cols, limit);
    RunKeeps(f, es);
    FullPaintRoundTripIff(Run(f, es), limit);
  }

  /**
    * Diff round trip, exactly: between any two well-formed states, on any replay that shows the earlier one as a
    * serialized stream would, the diff rebuilds the target if and only if the target shows no glued pair.
    */
  lemma {:induction false} DiffRoundTripIff(g: Grid, prev: Grid, r: Grid)
    requires WF(g) && WF(prev) && NarrowBaseStaysWide(g.profile)
    requires g.rows == prev.rows && g.cols == prev.cols && g.profile == prev.profile == r.profile
    requires HomeRegion(r) && StateEq(r, Norm(prev))
    ensures StateEq(Run(r, StateDiff(g, prev)), g) <==> ScreenAttrs(Active(g))
  {
    hide Run, StateDiff, StateEq, ScreenOk, ScreenShape, ScreenAttrs, NarrowBaseStaysWide;
    DiffShowsNorm(g, prev, r);
    ShowsNormIff(Run(r, StateDiff(g, prev)), g);
  }

  /**
    * The promise of `state_diff`: replaying the state it was taken from and then the diff rebuilds the new state, for
    * all well-formed states of one size, if and only if the new one shows no glued pair.
    */
  lemma {:induction false} FormattedThenDiff(g: Grid, prev: Grid, limit: nat)
    requires WF(g) && WF(prev) && NarrowBaseStaysWide(g.profile)
    requires g.rows == prev.rows && g.cols == prev.cols && g.profile == prev.profile
    ensures EventsOk(StateFormatted(prev) + StateDiff(g, prev))
    ensures StateEq(Run(Fresh(g.profile, g.rows, g.cols, limit), StateFormatted(prev) + StateDiff(g, prev)), g)
            <==> ScreenAttrs(Active(g))
  {
    hide Run, StateFormatted, StateDiff, EventsOk, StateEq, NarrowBaseStaysWide, ScreenOk, ScreenAttrs, ScreenShape;
    var f := Fresh(g.profile, g.rows, g.cols, limit);
    FormattedShowsNorm(prev, limit);
    DiffRoundTripIff(g, prev, Run(f, StateFormatted(prev)));
    RunSplit(f, StateFormatted(prev), StateDiff(g, prev));
  }

  // ---- a follower ----

  /** Well-formed states of one size and one width profile. */
  ghost predicate Followable(states: seq<Grid>) {
    && states != []
    && forall i | 0 <= i < |states| ::
         WF(states[i]) && states[i].rows == states[0].rows && states[i].cols == states[0].cols
         && states[i].profile == states[0].profile
  }

  /** The first state in full, then one diff per later state. */
  ghost function Updates(states: seq<Grid>): (es: seq<Event>)
    requires Followable(states)
    ensures EventsOk(es)
    decreases |states|
  {
    var n := |states| - 1;
    if n == 0 then StateFormatted(states[0])
    else
      var earlier := states[..n];
      Updates(earlier) + StateDiff(states[n], states[n - 1])
  }

  lemma {:induction false} FollowerShowsNorm(states: seq<Grid>, limit: nat)
    requires Followable(states) && NarrowBaseStaysWide(states[0].profile)
    ensures var g := states[|states| - 1];
            var s := Run(Fresh(g.profile, g.rows, g.cols, limit), Updates(states));
            HomeRegion(s) && StateEq(s, Norm(g)) && s.profile == g.profile
    decreases |states|
  {
    hide Run, StateFormatted, StateDiff, EventsOk, StateEq, NarrowBaseStaysWide, ScreenOk, ScreenAttrs, ScreenShape,
      HomeRegion, Norm;
    var n := |states| - 1;
    var g := states[n];
    if n == 0 {
      FormattedShowsNorm(g, limit);
    } else {
      var earlier := states[..n];
      var f := Fresh(g.profile, g.rows, g.cols, limit);
      FollowerShowsNorm(earlier, limit);
      DiffShowsNorm(g, states[n - 1], Run(f, Updates(earlier)));
      RunSplit(f, Updates(earlier), StateDiff(g, states[n - 1]));
    }
  }

  /**
    * A grid that only ever receives updates catches up with the last state of any sequence, whatever the earlier ones
    * showed, if and only if the last one shows no glued pair.
    */
  lemma {:induction false} FollowerKeepsUp(states: seq<Grid>, limit: nat)
    requires Followable(states) && NarrowBaseStaysWide(states[0].profile)
    ensures var g := states[|states| - 1];
            StateEq(Run(Fresh(g.profile, g.rows, g.cols, limit), Updates(states)), g) <==> ScreenAttrs(Active(g))
  {
    hide Run, Updates, StateEq, NarrowBaseStaysWide, ScreenOk, ScreenAttrs, ScreenShape, Norm;
    var g := states[|states| - 1];
    FollowerShowsNorm(states, limit);
    ShowsNormIff(Run(Fresh(g.profile, g.rows, g.cols, limit), Updates(states)), g);
  }

  // ---- a state that does not survive ----

  /** Two wide glyphs, the second bold, then two characters deleted on the first one's second half. */
  function Gluing(c: char): (es: seq<Event>)
    ensures EventsOk(es)
  {
    [Print(c), Graphics([[1]]), Print(c), Cursor(To(1, 2)), DeleteCharacters(2)]
  }

  const BOLD: Attrs := DEFAULT_ATTRS.(bold := true)

  lemma {:induction false} BoldPen(g: Grid)
    requires Shape(g) && g.pen == DEFAULT_ATTRS
    ensures Step(g, Graphics([[1]])) == g.(pen := BOLD)
  {
    hide Shape;
    assert [[1]][1..] == [];
    assert Sgr.ApplySgr([[1]], DEFAULT_ATTRS) == BOLD by {
      assert Sgr.ApplyParams([[1]], DEFAULT_ATTRS) == Sgr.ApplyCode([1], DEFAULT_ATTRS) by {
        assert [[1]] == [[1]] + [];
        Sgr.ApplyOne([1], [], DEFAULT_ATTRS);
      }
    }
  }

  /** A one-row canvas whose first glyph is wide, plain and closed, with the cursor after it. */
  ghost predicate OneGlyph(p: Profile, g: Grid, c: char) {
    && Canvas(g) && g.rows == 1 && g.cols == 4 && g.profile == p && g.row == 0 && g.col == 2
    && |Vis(g)| == 1 && |Vis(g)[0]| == 4
    && Vis(g)[0][0].contents == [c] && Vis(g)[0][0].wide && Vis(g)[0][0].attrs == DEFAULT_ATTRS
    && Vis(g)[0][1].cont
  }

  lemma {:induction false} FirstGlyph(p: Profile, c: char, limit: nat)
    requires p.charWidth(c) == 2
    ensures var g := Step(Fresh(p, 1, 4, limit), Print(c)); OneGlyph(p, g, c) && g.pen == DEFAULT_ATTRS
  {
    hide Step, PutGlyph, ScreenOk;
    var f := Fresh(p, 1, 4, limit);
    FreshIsWF(p, 1, 4, limit);
    StepPrint(f, c, Pos(0, 0));
  }

  lemma {:induction false} SecondGlyph(p: Profile, g: Grid, c: char)
    requires p.charWidth(c) == 2 && OneGlyph(p, g, c) && g.pen == BOLD
    ensures var h := Step(g, Print(c));
            && Canvas(h) && h.rows == 1 && h.cols == 4 && h.profile == p && h.row == 0
            && DeleteMixesPair(Vis(h)[0], 1, 2)
  {
    hide Step, PutGlyph, ScreenOk;
    assert c != ZWJ;
    assert !EndsWithZwj([c]);
    assert NoJoin(g);
    StepPrint(g, c, Pos(0, 2));
  }

  lemma {:induction false} NothingMixed(g: Grid, es: seq<Event>)
    requires Shape(g) && EventsOk(es) && forall i | 0 <= i < |es| :: !es[i].DeleteCharacters?
    ensures NeverMixes(g, es)
    decreases |es|
  {
    hide Step, Shape, EventOk;
    if es != [] { NothingMixed(Step(g, es[0]), es[1..]); }
  }

  lemma {:induction false} TwoGlyphs(p: Profile, c: char, limit: nat)
    requires p.charWidth(c) == 2
    ensures var h := Run(Fresh(p, 1, 4, limit), Gluing(c)[..4]);
            && Canvas(h) && AttrsOk(h) && h.profile == p && h.cols == 4 && h.rows == 1 && h.row == 0 && h.col == 1
            && DeleteMixesPair(ActiveRow(h), 1, 2)
  {
    hide Step, Run, ScreenOk, ScreenAttrs, DeleteMixesPair;
    var f := Fresh(p, 1, 4, limit);
    FreshIsWF(p, 1, 4, limit);
    FirstGlyph(p, c, limit);
    var g1 := Step(f, Print(c));
    BoldPen(g1);
    var g2 := Step(g1, Graphics([[1]]));
    SecondGlyph(p, g2, c);
    var g3 := Step(g2, Print(c));
    StepMove(g3, To(1, 2));
    assert Gluing(c)[..4] == [Print(c), Graphics([[1]]), Print(c), Cursor(To(1, 2))];
    RunFourEvents(f, Print(c), Graphics([[1]]), Print(c), Cursor(To(1, 2)));
    RunKeeps(f, Gluing(c)[..4]);
    NothingMixed(f, Gluing(c)[..4]);
  }

  lemma {:induction false} GluedEnd(p: Profile, c: char, limit: nat)
    requires p.charWidth(c) == 2
    ensures var g := Run(Fresh(p, 1, 4, limit), Gluing(c));
            && WF(g) && g.profile == p && !ScreenAttrs(Active(g)) && !g.modes.noAutowrap && HomeRegion(g)
  {
    hide Step, Run, ScreenOk, DeleteMixesPair, DeleteCells, ScreenAttrs;
    var f := Fresh(p, 1, 4, limit);
    TwoGlyphs(p, c, limit);
    FreshIsWF(p, 1, 4, limit);
    var h := Run(f, Gluing(c)[..4]);
    assert Gluing(c) == Gluing(c)[..4] + [DeleteCharacters(2)];
    RunSplit(f, Gluing(c)[..4], [DeleteCharacters(2)]);
    RunOne(h, DeleteCharacters(2));
    GluingShows(h);
    StepKeeps(h, DeleteCharacters(2));
  }

  /** The round trip does fail: after these events on a fresh one-row grid, replaying the state gives another state. */
  lemma {:induction false} GluedPairIsLost(p: Profile, c: char, limit: nat)
    requires p.charWidth(c) == 2
    ensures var g := Run(Fresh(p, 1, 4, limit), Gluing(c));
            WF(g) && !StateEq(Run(Fresh(p, g.rows, g.cols, limit), StateFormatted(g)), g)
  {
    hide Run, ScreenOk, StateFormatted, StateEq, ScreenAttrs;
    GluedEnd(p, c, limit);
    FullPaintRoundTripIff(Run(Fresh(p, 1, 4, limit), Gluing(c)), limit);
  }

  lemma {:induction false} GluingShows(h: Grid)
    requires WF(h) && AttrsOk(h) && h.col == 1 && DeleteMixesPair(ActiveRow(h), 1, 2)
    ensures var g := Step(h, DeleteCharacters(2));
            && !ScreenAttrs(Active(g)) && g.profile == h.profile && g.rows == h.rows && g.cols == h.cols
            && g.modes == h.modes && g.scrollTop == h.scrollTop && g.scrollBottom == h.scrollBottom
  {
    hide DeleteCells, Damage.MarkRange, ScreenOk, DeleteMixesPair;
    ActiveRowOk(h);
    var row := DeleteCells(ActiveRow(h), 1, 2);
    DeleteKeepsAttrsIff(h.profile, ActiveRow(h), 1, 2);
    assert |row| == h.cols by { EditLengths(ActiveRow(h), 1, 2); }
    WithActiveRowFrame(h, row);
    assert Active(Step(h, DeleteCharacters(2))).cells[h.row] == row;
  }

  // ---- a replay that is itself glued ----

  lemma {:induction false} SameRowPaintsNothing(ctx: RowCtx, st: Painter, col: nat)
    requires CtxOk(ctx) && PainterOk(st, |ctx.cells|) && col <= |ctx.cells| && st.erase.None? && !st.repaint
    ensures var t := DiffFrom(ctx, ctx.cells, st, col);
            t.out == st.out && t.pos == st.pos && t.attrs == st.attrs && t.erase.None?
    decreases |ctx.cells| - col
  {
    hide EventsOk, NarrowsOnReplay, WriteCell, FlushErase;
    if col < |ctx.cells| { SameRowPaintsNothing(ctx, DiffCell(ctx, ctx.cells, st, col), col + 1); }
  }

  lemma {:induction false} SameRowsPaintNothing(g: Grid, row: nat, out: seq<Event>, pos: Pos, attrs: Attrs)
    requires Shape(g) && row <= g.rows && EventsOk(out)
    ensures DiffRows(g, g, row, out, pos, attrs) == Painter(out, pos, attrs, None, false, false)
    decreases g.rows - row
  {
    hide EventsOk, DiffFrom, ZwjWrapHazard, ScreenShape;
    if row < g.rows {
      var ctx := CtxAt(g, row);
      var start := DiffStart(ctx, ctx.cells, ctx.wrapping, out, pos, attrs);
      assert !WrapRedraw(ctx, ctx.cells, ctx.wrapping, pos);
      SameRowPaintsNothing(ctx, start, 0);
      SameRowsPaintNothing(g, row + 1, out, pos, attrs);
    }
  }

  /** The diff of a state from itself only turns autowrap on and back. */
  lemma {:induction false} SameStateDiff(g: Grid)
    requires Shape(g)
    ensures StateDiff(g, g) == Mode(7, true) + AutowrapTail(g)
  {
    hide DiffRows, FullPaint, MouseModeNumber, MouseEncodingNumber, AutowrapTail, EventsOk, ScreenShape;
    assert EventsOk([]) by { ConstantsOk(); }
    SameRowsPaintNothing(g, 0, [], Pos(g.row, g.col), g.pen);
  }

  /**
    * The diff does miss something: on a replay that shows a glued pair itself, the diff to the state with that pair
    * mended rewrites nothing, since it never looks at a continuation.
    */
  lemma {:induction false} DiffMissesGlue(p: Profile, c: char, limit: nat)
    requires p.charWidth(c) == 2
    ensures var g := Run(Fresh(p, 1, 4, limit), Gluing(c));
            && WF(g) && WF(Norm(g)) && HomeRegion(g)
            && !StateEq(Run(g, StateDiff(Norm(g), g)), Norm(g))
  {
    hide Step, Run, ScreenOk, StateDiff, StateEq, NormRows, ScreenAttrs, AutowrapTail;
    var g := Run(Fresh(p, 1, 4, limit), Gluing(c));
    GluedEnd(p, c, limit);
    NormIsWF(g);
    NormFrame(g);
    DiffIgnoresGlue(Norm(g), g);
    NormIsWF(Norm(g));
    SameStateDiff(Norm(g));
    var es: seq<Event> := Mode(7, true) + AutowrapTail(Norm(g));
    assert StateDiff(Norm(g), g) == es;
    assert es == [PrivateModes([7], true)] by { TailIsEmpty(Norm(g)); }
    RunOne(g, PrivateModes([7], true));
    AutowrapLeavesRows(g);
    GluedIsNotMended(Step(g, PrivateModes([7], true)), g);
  }

  lemma {:induction false} TailIsEmpty(g: Grid)
    requires !g.modes.noAutowrap
    ensures AutowrapTail(g) == []
  {
  }

  lemma {:induction false} AutowrapLeavesRows(g: Grid)
    requires Shape(g)
    ensures var h := Step(g, PrivateModes([7], true)); Active(h) == Active(g)
  {
    hide ScreenShape;
    assert SetDecModes(g, [7], true) == SetDecMode(g, 7, true);
  }

  lemma {:induction false} GluedIsNotMended(s: Grid, g: Grid)
    requires Active(s) == Active(g) && WF(g) && !ScreenAttrs(Active(g))
    ensures !StateEq(s, Norm(g))
  {
    hide NormRows, AttrsPaired, RowLooksLike, MouseModeNumber, MouseEncodingNumber, ScreenOk;
    NormIsWF(g);
    RowsLookNormalIff(Active(g).cells);
    LooksSymmetric(Active(g).cells, NormRows(Active(g).cells));
  }

  lemma {:induction false} LooksSymmetric(a: seq<Row>, b: seq<Row>)
    ensures RowsLookAlike(a, b) <==> RowsLookAlike(b, a)
  {
    forall r | 0 <= r < |a| && |a| == |b| ensures RowLooksLike(a[r], b[r]) <==> RowLooksLike(b[r], a[r]) {
      RowLooksSymmetric(a[r], b[r]);
    }
    hide RowLooksLike;
  }

  lemma {:induction false} RowLooksSymmetric(a: Row, b: Row)
    ensures RowLooksLike(a, b) <==> RowLooksLike(b, a)
  {
  }
}
