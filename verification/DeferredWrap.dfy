/** DECAWM: what the deferred wrap guarantees about printing. */
module DeferredWrap {
  import opened Basics
  import opened Cells
  import opened Rows
  import opened Damage
  import opened GridModel
  import opened Invariant
  import opened Replay

  /** With autowrap off, a wide glyph with fewer than two columns left. */
  predicate Suppressed(g: Grid, ch: char) {
    g.modes.noAutowrap && g.profile.charWidth(ch) == 2 && g.cols - Min(g.col, g.cols - 1) < 2
  }

  predicate Joins(g: Grid, ch: char)
    requires Shape(g)
  {
    Append(Touch(g), ch, g.profile.charWidth(ch)).Some?
  }

  /** Column a glyph of its own lands in. */
  function LandingCol(g: Grid): u16
    requires Shape(g)
  {
    if g.modes.noAutowrap then Min(g.col, g.cols - 1) else if g.pendingWrap then 0 else g.col
  }

  /** The character ended up at the end of a cluster that a ZWJ had left open. */
  ghost predicate JoinedCluster(g: Grid, h: Grid, ch: char)
    requires Shape(g) && Shape(h)
  {
    exists lead: nat ::
      lead < g.cols == h.cols && h.row == g.row
      && EndsWithZwj(ActiveRow(g)[lead].contents)
      && ActiveRow(h)[lead].contents == ActiveRow(g)[lead].contents + [ch]
  }

  /** Row a glyph of its own lands in: a deferred wrap takes the next row, or scrolls at the bottom margin. */
  function LandingRow(g: Grid): u16
    requires Shape(g)
  {
    if g.modes.noAutowrap || !g.pendingWrap || g.row == g.scrollBottom then g.row else Min(g.row + 1, g.rows - 1)
  }

  /** The glyph is in a cell of its own, where the cursor pointed or where the wrap carried it. */
  ghost predicate NewCell(g: Grid, h: Grid, ch: char)
    requires Shape(g) && Shape(h)
  {
    && LandingCol(g) < h.cols && ActiveRow(h)[LandingCol(g)] == Glyph(g, ch)
    && h.row == LandingRow(g)
  }

  lemma {:induction false} JoinLands(g: Grid, ch: char)
    requires WF(g) && g.profile.charWidth(ch) >= 1 && Joins(g, ch)
    ensures JoinedCluster(g, WriteChar(g, ch), ch)
  {
    hide MarkRange, ScreenOk, SetCellWidth;
    var g0 := Touch(g);
    var row := ActiveRow(g0);
    var lead := LeadOf(row, JoinTarget(g0).value);
    var contents := row[lead].contents + [ch];
    var h := ExtendCluster(g0, lead, contents);
    assert WriteChar(g, ch) == h;
    var width := Min(g.profile.clusterWidth(contents), 2);
    WithActiveRowFrame(g0, JoinCluster(row, lead, contents, g0.activeLink, width));
    assert ActiveRow(h)[lead].contents == ActiveRow(g)[lead].contents + [ch];
  }

  lemma {:induction false} PutLands(g: Grid, ch: char)
    requires Shape(g) && g.col < g.cols && g.profile.charWidth(ch) >= 1
    ensures var h := PutChar(g, ch, g.profile.charWidth(ch));
            h.row == g.row && h.cols == g.cols && ActiveRow(h)[g.col] == Glyph(g, ch)
  {
    hide PutChar, PutGlyph, ScreenShape;
    PutCharEffect(g, ch);
  }

  lemma {:induction false} NewlineRow(g: Grid)
    requires Shape(g)
    ensures Newline(g, Soft).row == if g.row == g.scrollBottom then g.row else Min(g.row + 1, g.rows - 1)
  {
    hide EvictRows, MarkRows, ScreenShape;
    if g.row == g.scrollBottom { EvictFrame(g, Min(1, g.scrollBottom - g.scrollTop + 1), Soft); }
  }

  lemma {:induction false} WrapThenPut(g: Grid, ch: char)
    requires WF(g) && g.pendingWrap && !g.modes.noAutowrap && !Joins(g, ch) && g.profile.charWidth(ch) >= 1
    ensures NewCell(g, WriteChar(g, ch), ch)
  {
    hide Append, PutChar, Newline, ScreenOk, ScreenShape;
    var g1 := Touch(g).(pendingWrap := false, col := 0);
    NewlineFrame(g1, Soft);
    NewlineRow(g1);
    PutLands(Newline(g1, Soft), ch);
  }

  /**
    * No positive-width printable is lost: it joins an open cluster or gets a cell of its own, in every well-formed
    * state; the single exception is a wide glyph without room while autowrap is off, which leaves the grid as it was.
    */
  lemma {:induction false} PrintableNeverLost(g: Grid, ch: char)
    requires WF(g) && g.profile.charWidth(ch) >= 1
    ensures var h := WriteChar(g, ch);
            if Joins(g, ch) then JoinedCluster(g, h, ch)
            else if Suppressed(g, ch) then h == Touch(g)
            else NewCell(g, h, ch)
  {
    hide Append, PutChar, Newline, ScreenOk, ScreenShape, JoinedCluster;
    if Joins(g, ch) {
      JoinLands(g, ch);
    } else if g.modes.noAutowrap {
      if !Suppressed(g, ch) {
        PutLands(Touch(g).(pendingWrap := false, col := LandingCol(g)), ch);
      }
    } else if g.pendingWrap {
      WrapThenPut(g, ch);
    } else {
      PutLands(Touch(g), ch);
    }
  }

  /** Over every run the wrap flag and the phantom column agree, so the next printable is never dropped. */
  lemma {:induction false} RunNeverLosesPrintables(g: Grid, es: seq<Event>, ch: char)
    requires WF(g) && EventsOk(es) && g.profile.charWidth(ch) >= 1
    ensures var s := Run(g, es);
            && WrapParked(s)
            && (!s.modes.noAutowrap ==> Joins(s, ch) || NewCell(s, Step(s, Print(ch)), ch))
  {
    hide NewCell, Joins, ScreenOk, ScreenShape;
    RunKeeps(g, es);
    RunKeepsProfile(g, es);
    PrintableNeverLost(Run(g, es), ch);
  }
}
