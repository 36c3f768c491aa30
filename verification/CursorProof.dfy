/** The cursor restore: a phantom column is re-armed without disturbing the painted cells. */
module CursorProof {
  import opened Basics
  import opened Cells
  import opened Rows
  import opened GridModel
  import opened Invariant
  import opened Serialize
  import opened Replay
  import opened Clusters
  import opened Painting

  /** A well-formed target row the replay row already looks like. */
  ghost predicate Settled(r: Grid, row: nat, cells: Row) {
    && Shape(r) && row < r.rows && |cells| == r.cols
    && RowOk(r.profile, cells) && AttrsPaired(cells)
    && RowLooksLike(Vis(r)[row], cells)
  }

  /** `s` still looks like the target row, with cursor and pen where asked, everything else kept. */
  ghost predicate Restored(r: Grid, s: Grid, row: u16, cells: Row, cursor: Pos, attrs: Attrs) {
    && Tracks(s, cursor, attrs) && SameSetup(r, s)
    && |Vis(s)| == |Vis(r)| && row < |Vis(r)|
    && (forall i | 0 <= i < |Vis(r)| && i != row :: Vis(s)[i] == Vis(r)[i])
    && RowLooksLike(Vis(s)[row], cells)
  }

  /** Move to `pos` and switch the pen: a print lands there. */
  lemma {:induction false} MoveToThenPen(r: Grid, pos: Pos, attrs: Attrs)
    requires Canvas(r) && pos.row < r.rows && pos.col < r.cols
    ensures EventsOk(MoveTo(pos) + AttrsTo(attrs, r.pen))
    ensures var s := Run(r, MoveTo(pos) + AttrsTo(attrs, r.pen));
            PrintsAt(s, pos) && SameSetup(r, s) && Vis(s) == Vis(r) && s.pen == attrs
  {
    hide MoveTo, AttrsTo, Run, EventsOk;
    RunMoveTo(r, pos);
    var r1 := Run(r, MoveTo(pos));
    assert PrintsAt(r1, pos);
    hide WF, NoJoin;
    RunAttrsTo(r1, attrs);
    PenKeepsReady(r1, pos, attrs);
    RunSplit(r, MoveTo(pos), AttrsTo(attrs, r.pen));
  }

  // ---- redrawing a filled last cell ----

  /** Reprinting a glyph over itself at the right margin leaves the row looking the same. */
  lemma {:induction false} StampOverSelf(p: Profile, was: Row, now: Row, cells: Row, lead: nat)
    requires RowOk(p, cells) && AttrsPaired(cells) && RowLooksLike(was, cells)
    requires lead < |cells| && cells[lead].HasContents()
    requires lead + 1 == |cells| || (lead + 2 == |cells| && cells[lead].wide)
    requires Stamped(p, was, now, lead, cells[lead].contents, |cells[lead].contents|, cells[lead].attrs)
    ensures RowLooksLike(now, cells)
  {
    var s := cells[lead].contents;
    assert s[..|s|] == s;
    assert CellOk(p, cells[lead]) && PairedAt(cells, lead);
    if lead + 1 < |cells| { assert CellOk(p, cells[lead + 1]); }
    hide Widened, CellsOk, Paired;
  }

  lemma {:induction false} RunRedraw(r: Grid, row: u16, lead: u16, cells: Row)
    requires Canvas(r) && Settled(r, row, cells)
    requires lead < r.cols && cells[lead].HasContents()
    requires lead + 1 == r.cols || (lead + 2 == r.cols && cells[lead].wide)
    ensures row < U16_MAX && lead < U16_MAX
    ensures Restored(r, Run(r, RedrawLast(row, lead, cells[lead], r.pen)), row, cells, Pos(row, r.cols), r.pen)
  {
    var cell := cells[lead];
    var pos := Pos(row, lead);
    var pen := r.pen;
    assert CellOk(r.profile, cell) && SameLook(Vis(r)[row][lead], cell);
    var s0 := cell.contents;
    assert s0[..|s0|] == s0;
    var es1, es2, es3 := MoveTo(pos) + AttrsTo(cell.attrs, pen), PrintAll(s0), AttrsTo(pen, cell.attrs);
    hide MoveTo, AttrsTo, PrintAll, Run, EventsOk, Widened, NextCell, WF, NoJoin;
    MoveToThenPen(r, pos, cell.attrs);
    var r1 := Run(r, es1);
    PrintCluster(r1, pos, s0);
    hide Settled;
    var r2 := Run(r1, es2);
    StampOverSelf(r.profile, Vis(r)[row], Vis(r2)[row], cells, lead);
    RunAttrsTo(r2, pen);
    PenKeepsTracks(r2, Pos(row, r.cols), pen);
    hide Stamped;
    RunSplit(r, es1, es2);
    RunSplit(r, es1 + es2, es3);
  }

  // ---- jogging over a blank last cell ----

  lemma {:induction false} StepSave(r: Grid)
    requires Canvas(r)
    ensures var s := Step(r, Save);
            && Canvas(s) && SameSetup(r, s) && Vis(s) == Vis(r) && s.pen == r.pen
            && s.row == r.row && s.col == r.col && s.savedRow == r.row && s.savedCol == r.col
  {
    hide ScreenOk, ScreenShape;
  }

  lemma {:induction false} StepRestore(r: Grid)
    requires Canvas(r) && r.savedRow < r.rows && r.savedCol == r.cols
    ensures var s := Step(r, Restore);
            && Canvas(s) && SameSetup(r, s) && Vis(s) == Vis(r) && s.pen == r.pen
            && s.row == r.savedRow && s.col == r.cols
  {
    hide ScreenOk, ScreenShape;
  }

  /** Save, backspace, erase, restore: the last cell is erased under a cursor that stays parked. */
  lemma {:induction false} RunEraseUnderCursor(r: Grid)
    requires Canvas(r) && r.col == r.cols
    ensures EventsOk(ERASE_UNDER_CURSOR)
    ensures var s := Run(r, ERASE_UNDER_CURSOR);
            && Tracks(s, Pos(r.row, r.cols), r.pen)
            && Repainted(r, s, r.row,
                 EraseCells(ActiveRow(r), r.cols - 1, r.cols, BlankCell(r.pen.background)))
  {
    var e1, e2, e3, e4 := Save, Control(0x08), EraseCharacters(0), Restore;
    assert Shape(r);
    hide Step, Run, EventsOk, EraseCells;
    StepSave(r);
    var r1 := Step(r, e1);
    assert r1.col >= 1;
    hide WF;
    StepBackspace(r1);
    var r2 := Step(r1, e2);
    StepErase(r2, 0);
    var r3 := Step(r2, e3);
    StepRestore(r3);
    RunFourEvents(r, e1, e2, e3, e4);
  }

  lemma {:induction false} RunFourEvents(r: Grid, a: Event, b: Event, c: Event, d: Event)
    requires Shape(r) && EventOk(a) && EventOk(b) && EventOk(c) && EventOk(d)
    ensures EventsOk([a, b, c, d])
    ensures Run(r, [a, b, c, d]) == Step(Step(Step(Step(r, a), b), c), d)
  {
    hide Step;
    assert [a, b, c, d][1..] == [b, c, d];
    RunThree(Step(r, a), b, c, d);
  }

  /** A space printed over a blank last cell and erased again leaves the row looking the same. */
  lemma {:induction false} JogOverBlank(p: Profile, was: Row, cells: Row, glyph: Cell)
    requires RowOk(p, cells) && RowLooksLike(was, cells) && |cells| >= 1 && !glyph.wide && !glyph.cont
    requires !cells[|cells| - 1].HasContents() && !cells[|cells| - 1].cont
    ensures var n := |cells|;
            RowLooksLike(JoggedRow(was, glyph, cells[n - 1].attrs), cells)
  {
    var n := |cells|;
    assert CellOk(p, cells[n - 1]);
    assert SameLook(was[n - 1], cells[n - 1]);
    hide CellOk, PutGlyph, EraseCells;
  }

  /** Print a space at `pos`, then switch the pen. */
  lemma {:induction false} SpaceThenPen(r: Grid, pos: Pos, attrs: Attrs)
    requires PrintsAt(r, pos) && r.col == pos.col == r.cols - 1 && pos.row == r.row
    ensures EventsOk([Print(' ')] + AttrsTo(attrs, r.pen))
    ensures var s := Run(r, [Print(' ')] + AttrsTo(attrs, r.pen));
            && Tracks(s, Pos(pos.row, r.cols), attrs)
            && Repainted(r, s, pos.row, PutGlyph(ActiveRow(r), pos.col, Glyph(r, ' ')))
  {
    assert EventsOk([Print(' ')]);
    hide AttrsTo, Run, EventsOk, PutGlyph, Step, NoJoin;
    StepPrint(r, ' ', pos);
    RunOne(r, Print(' '));
    var r1 := Run(r, [Print(' ')]);
    hide WF;
    RunAttrsTo(r1, attrs);
    PenKeepsTracks(r1, Pos(pos.row, r.cols), attrs);
    RunSplit(r, [Print(' ')], AttrsTo(attrs, r.pen));
  }

  /** Erase under the parked cursor, then return to the pen. */
  lemma {:induction false} EraseThenPen(r: Grid, attrs: Attrs)
    requires Canvas(r) && r.col == r.cols
    ensures EventsOk(ERASE_UNDER_CURSOR + AttrsTo(attrs, r.pen))
    ensures var s := Run(r, ERASE_UNDER_CURSOR + AttrsTo(attrs, r.pen));
            && Tracks(s, Pos(r.row, r.cols), attrs)
            && Repainted(r, s, r.row, EraseCells(ActiveRow(r), r.cols - 1, r.cols, BlankCell(r.pen.background)))
  {
    hide AttrsTo, Run, EventsOk, EraseCells;
    RunEraseUnderCursor(r);
    var r1 := Run(r, ERASE_UNDER_CURSOR);
    assert Shape(r);
    hide WF;
    RunAttrsTo(r1, attrs);
    PenKeepsTracks(r1, Pos(r.row, r.cols), attrs);
    RunSplit(r, ERASE_UNDER_CURSOR, AttrsTo(attrs, r.pen));
  }

  lemma {:induction false} RepaintedTwice(r: Grid, mid: Grid, s: Grid, row: nat, a: Row, b: Row)
    requires Repainted(r, mid, row, a) && Repainted(mid, s, row, b)
    ensures Repainted(r, s, row, b)
  {
  }

  /** What is left of the row after a space was printed over its last cell and erased in `attrs`. */
  function JoggedRow(row: Row, glyph: Cell, attrs: Attrs): Row
    requires |row| >= 1
  {
    EraseCells(PutGlyph(row, |row| - 1, glyph), |row| - 1, |row|, BlankCell(attrs.background))
  }

  /** Print a space over the last cell, then erase it under the parked cursor. */
  lemma {:induction false} SpaceThenErase(r: Grid, pos: Pos, attrs: Attrs, pen: Attrs)
    requires PrintsAt(r, pos) && r.col == pos.col == r.cols - 1 && pos.row == r.row
    ensures var es := ([Print(' ')] + AttrsTo(attrs, r.pen)) + (ERASE_UNDER_CURSOR + AttrsTo(pen, attrs));
            && EventsOk(es) && |ActiveRow(r)| >= 1
            && Tracks(Run(r, es), Pos(pos.row, r.cols), pen)
            && Repainted(r, Run(r, es), pos.row, JoggedRow(ActiveRow(r), Glyph(r, ' '), attrs))
  {
    hide AttrsTo, Run, EventsOk, EraseCells, PutGlyph, NoJoin;
    var es2, es3 := [Print(' ')] + AttrsTo(attrs, r.pen), ERASE_UNDER_CURSOR + AttrsTo(pen, attrs);
    var put := PutGlyph(ActiveRow(r), r.cols - 1, Glyph(r, ' '));
    assert Shape(r);
    SpaceThenPen(r, pos, attrs);
    var r2 := Run(r, es2);
    hide WF;
    EraseThenPen(r2, pen);
    RunSplit(r, es2, es3);
    assert ActiveRow(r2) == put;
    RepaintedTwice(r, r2, Run(r2, es3), pos.row, put, JoggedRow(ActiveRow(r), Glyph(r, ' '), attrs));
  }

  lemma {:induction false} JogEffect(r: Grid, row: u16, last: Cell)
    requires Canvas(r) && row < r.rows
    ensures row < U16_MAX && r.cols - 1 < U16_MAX && row < |Vis(r)| && |Vis(r)[row]| >= 1
    ensures var s := Run(r, JogLast(row, r.cols - 1, last, r.pen));
            && Tracks(s, Pos(row, r.cols), r.pen)
            && Repainted(r, s, row, JoggedRow(Vis(r)[row], Cell([' '], false, false, r.pen, r.activeLink), last.attrs))
  {
    var pos := Pos(row, r.cols - 1);
    var es1, es2, es3 := MoveTo(pos), [Print(' ')] + AttrsTo(last.attrs, r.pen),
        ERASE_UNDER_CURSOR + AttrsTo(r.pen, last.attrs);
    JogEventsOk(AttrsTo(last.attrs, r.pen), AttrsTo(r.pen, last.attrs));
    hide AttrsTo, Run, JoggedRow, MoveTo, EventsOk;
    RunMoveTo(r, pos);
    MoveKeepsLink(r, pos);
    var r1 := Run(r, es1);
    assert PrintsAt(r1, pos);
    hide NoJoin, PrintsAt, WF;
    SpaceThenErase(r1, pos, last.attrs, r.pen);
    JogRun(r, es1, es2, es3);
    RepaintedVia(r, r1, Run(r1, es2 + es3), row, JoggedRow(Vis(r)[row], Glyph(r1, ' '), last.attrs));
  }

  lemma {:induction false} JogEventsOk(a: seq<Event>, b: seq<Event>)
    requires EventsOk(a) && EventsOk(b)
    ensures EventsOk([Print(' ')] + a) && EventsOk(ERASE_UNDER_CURSOR + b)
  {
  }

  lemma {:induction false} MoveKeepsLink(r: Grid, pos: Pos)
    requires Shape(r) && pos.row < U16_MAX && pos.col < U16_MAX
    ensures Run(r, MoveTo(pos)).activeLink == r.activeLink
  {
    RunOne(r, MoveTo(pos)[0]);
    hide Shape;
  }

  lemma {:induction false} RunJog(r: Grid, row: u16, cells: Row)
    requires Canvas(r) && Settled(r, row, cells)
    requires !cells[r.cols - 1].HasContents() && !cells[r.cols - 1].cont
    ensures row < U16_MAX && r.cols - 1 < U16_MAX
    ensures Restored(r, Run(r, JogLast(row, r.cols - 1, cells[r.cols - 1], r.pen)), row, cells, Pos(row, r.cols), r.pen)
  {
    hide JogLast, Run, WF, EraseCells, PutGlyph;
    JogEffect(r, row, cells[r.cols - 1]);
    JogOverBlank(r.profile, Vis(r)[row], cells, Cell([' '], false, false, r.pen, r.activeLink));
  }

  lemma {:induction false} JogRun(r: Grid, a: seq<Event>, b: seq<Event>, c: seq<Event>)
    requires Shape(r) && EventsOk(a) && EventsOk(b) && EventsOk(c)
    ensures EventsOk(b + c) && EventsOk(a + b + c) && Run(r, a + b + c) == Run(Run(r, a), b + c)
  {
    hide Run, EventsOk;
    assert a + b + c == a + (b + c);
    RunSplit(r, b, c);
    RunSplit(r, a, b + c);
  }

  // ---- the restore ----

  lemma {:induction false} RunCursorRestore(r: Grid, cells: seq<Row>, cursor: Pos, pos: Pos)
    requires Tracks(r, pos, r.pen) && |cells| == r.rows && cursor.row < r.rows && cursor.col <= r.cols
    requires Settled(r, cursor.row, cells[cursor.row])
    ensures cursor.row < U16_MAX && 1 <= r.cols <= MAX_COLS
    ensures var es := CursorRestore(cells, cursor, r.cols, pos, r.pen);
            Restored(r, Run(r, es), cursor.row, cells[cursor.row], cursor, r.pen)
  {
    hide Run, RedrawLast, JogLast, MoveFromTo, ScreenOk;
    var row := cells[cursor.row];
    var cols := r.cols;
    if pos != cursor && cursor.col >= cols {
      assert PairedAt(row, cols - 1) && CellOk(r.profile, row[cols - 1]);
      if cols >= 2 && row[cols - 1].cont {
        assert CellOk(r.profile, row[cols - 2]);
        RunRedraw(r, cursor.row, cols - 2, row);
      } else if row[cols - 1].HasContents() {
        RunRedraw(r, cursor.row, cols - 1, row);
      } else {
        RunJog(r, cursor.row, row);
      }
    } else if pos != cursor {
      RunMoveFromTo(r, pos, cursor);
    } else {
      RunNothing(r);
    }
  }
}
