/**
  * A consumer that copies only the damaged spans ends up with the screen (src/grid.rs, src/damage.rs, src/snapshot.rs).
  */
module DamageMirror {
  import opened Basics
  import opened Cells
  import opened Rows
  import opened Damage
  import opened GridModel
  import opened Invariant
  import opened MarkedRows
  import opened Scrolling
  import opened Serialize
  import opened Replay

  /** Damage only grows, and every cell it does not cover reads as before. */
  ghost predicate Mirrors(g: Grid, h: Grid) {
    && (g.dirty.AllDirty? ==> h.dirty.AllDirty?)
    && (h.dirty.AllDirty? || Faithful(g, h))
  }

  ghost predicate Faithful(g: Grid, h: Grid) {
    && h.rows == g.rows && h.cols == g.cols
    && (forall r: u16, c: u16 | Covers(g.dirty, r, c) :: Covers(h.dirty, r, c))
    && (Shape(g) && Shape(h) ==>
          forall r: u16, c: u16 | r < g.rows && c < g.cols && !Covers(h.dirty, r, c) ::
            Active(h).cells[r][c] == Active(g).cells[r][c])
  }

  lemma {:induction false} MirrorsCompose(g: Grid, h: Grid, k: Grid)
    requires Shape(g) && Shape(h) && Shape(k) && Mirrors(g, h) && Mirrors(h, k)
    ensures Mirrors(g, k)
  {
    hide Shape, Covers;
  }

  // ---- marks ----

  lemma {:induction false} MarkCovers(d: Dirty, row: u16, start: u16, end: u16)
    ensures d.AllDirty? ==> MarkRange(d, row, start, end).AllDirty?
    ensures forall r: u16, c: u16 | Covers(d, r, c) :: Covers(MarkRange(d, row, start, end), r, c)
    ensures forall c: u16 | start <= c < end :: Covers(MarkRange(d, row, start, end), row, c)
    ensures d == CLEAN ==>
              MarkRange(d, row, start, end).RowsDirty?
              && forall r: u16, c: u16 | Covers(MarkRange(d, row, start, end), r, c) :: r == row && start <= c < end
  {
  }

  lemma {:induction false} MarkRowsCovers(d: Dirty, top: u16, bottom: u16)
    ensures d.AllDirty? ==> MarkRows(d, top, bottom).AllDirty?
    ensures forall r: u16, c: u16 | Covers(d, r, c) :: Covers(MarkRows(d, top, bottom), r, c)
    ensures forall r: u16, c: u16 | top <= r <= bottom && c < U16_MAX :: Covers(MarkRows(d, top, bottom), r, c)
    decreases bottom + 1 - top
  {
    hide MarkRange, Covers;
    if top <= bottom {
      MarkCovers(d, top, 0, U16_MAX);
      if top < bottom { MarkRowsCovers(MarkRow(d, top), top + 1, bottom); }
    }
  }

  // ---- edits of one row ----

  predicate SameFrame(g: Grid, h: Grid) {
    h.rows == g.rows && h.cols == g.cols && h.modes.alt == g.modes.alt
  }

  /** `h` is `g` with the cursor row replaced and columns `[start, end)` of it marked. */
  ghost predicate RowEdited(g: Grid, h: Grid, now: Row, start: u16, end: u16) {
    && Shape(g) && Shape(h) && SameFrame(g, h) && |now| == g.cols
    && Active(h).cells == Active(g).cells[g.row := now]
    && h.dirty == MarkRange(g.dirty, g.row, start, end)
  }

  lemma {:induction false} RowEditMirrors(g: Grid, h: Grid, now: Row, start: u16, end: u16)
    requires RowEdited(g, h, now, start, end) && Within(ActiveRow(g), now, start, end)
    ensures Mirrors(g, h)
  {
    hide Covers, MarkRange;
    MarkCovers(g.dirty, g.row, start, end);
    forall r: u16, c: u16 | r < g.rows && c < g.cols && !Covers(h.dirty, r, c)
      ensures Active(h).cells[r][c] == Active(g).cells[r][c]
    {
      if r == g.row { assert Active(h).cells[r] == now && Active(g).cells[r] == ActiveRow(g); }
    }
  }

  lemma {:induction false} RowEditMisses(g: Grid, h: Grid, now: Row, start: u16, end: u16)
    requires RowEdited(g, h, now, start, end) && !Within(ActiveRow(g), now, start, end) && g.dirty == CLEAN
    ensures !Mirrors(g, h)
  {
    hide Covers, MarkRange;
    MarkCovers(g.dirty, g.row, start, end);
    var row := ActiveRow(g);
    var c: u16 :| c < |row| && !(start <= c < end) && now[c] != row[c];
    assert !Covers(h.dirty, g.row, c);
    assert Active(h).cells[g.row][c] != Active(g).cells[g.row][c];
  }

  lemma {:induction false} Untouched(g: Grid, h: Grid)
    requires Shape(g) && Shape(h) && SameFrame(g, h) && h.dirty == g.dirty && Active(h).cells == Active(g).cells
    ensures Mirrors(g, h)
  {
    hide Covers;
  }

  /** What `WithActiveRow` and a few other fields make of the cursor row. */
  lemma {:induction false} SetRowEdits(g: Grid, h: Grid, now: Row, start: u16, end: u16)
    requires Shape(g) && Shape(h) && |now| == g.cols
    requires var k := WithActiveRow(g, now);
             h.rows == k.rows && h.cols == k.cols && h.modes == k.modes && h.primary == k.primary
                 && h.alternate == k.alternate
    requires h.dirty == MarkRange(g.dirty, g.row, start, end)
    ensures RowEdited(g, h, now, start, end)
  {
    hide ScreenShape, MarkRange;
  }

  // ---- printing ----

  lemma {:induction false} PutMirrors(g: Grid, ch: char, width: nat)
    requires Shape(g) && Paired(ActiveRow(g)) && 1 <= width <= 2
    ensures Mirrors(g, PutChar(g, ch, width))
  {
    hide Paired, PutGlyph, ScreenShape, WithActiveRow, MarkRange, PutStart, PutEnd, Mirrors, Within;
    var h := PutChar(g, ch, width);
    if g.col < g.cols {
      var row := ActiveRow(g);
      var cell := Cell([ch], width > 1, false, g.pen, g.activeLink);
      PutWithin(row, g.col, cell, width);
      SetRowEdits(g, h, PutGlyph(row, g.col, cell), PutStart(row, g.col), PutEnd(row, g.col, width));
      RowEditMirrors(g, h, PutGlyph(row, g.col, cell), PutStart(row, g.col), PutEnd(row, g.col, width));
    } else {
      Untouched(g, h);
    }
  }

  lemma {:induction false} ShiftOutside(s: Screen, cols: u16, top: nat, bottom: nat, n: nat, wrap: RowWrap, r: nat)
    requires top <= bottom < |s.cells| == |s.wraps| && n <= bottom + 1 - top && r < |s.cells| && (r < top || bottom < r)
    ensures var t := ShiftUp(s, cols, top, bottom, n, wrap); |t.cells| == |s.cells| && t.cells[r] == s.cells[r]
  {
  }

  lemma {:induction false} ScrollMirrors(g: Grid, count: u16, wrap: RowWrap)
    requires Shape(g)
    ensures Mirrors(g, ScrollUp(g, count, wrap))
  {
    hide Covers, MarkRows, ScrollUp, ShiftUp;
    var h := ScrollUp(g, count, wrap);
    ScrollUpCells(g, count, wrap);
    MarkRowsCovers(g.dirty, g.scrollTop, g.scrollBottom);
    forall r: u16, c: u16 | r < g.rows && c < g.cols && !Covers(h.dirty, r, c)
      ensures Active(h).cells[r][c] == Active(g).cells[r][c]
    {
      ShiftOutside(Active(g), g.cols, g.scrollTop, g.scrollBottom, Min(count, g.scrollBottom - g.scrollTop + 1), wrap,
          r);
    }
  }

  lemma {:induction false} NewlineMirrors(g: Grid, wrap: RowWrap)
    requires Shape(g)
    ensures Mirrors(g, Newline(g, wrap))
  {
    hide Mirrors, ScrollUp, ScreenShape;
    if g.row == g.scrollBottom { ScrollMirrors(g, 1, wrap); } else { Untouched(g, Newline(g, wrap)); }
  }

  /** The lead a printed character extends, when it joins a cluster at all. */
  function JoinLead(g: Grid, ch: char): (r: Option<u16>)
    requires Shape(g)
    ensures r.Some? ==> r.value < g.cols
  {
    var width := g.profile.charWidth(ch);
    match JoinTarget(g)
    case None => None
    case Some(target) =>
      var row := ActiveRow(g);
      var lead := LeadOf(row, target);
      var contents := row[lead].contents;
      if contents == "" || |contents| > MAX_CLUSTER_JOINERS then None
      else if width == 0 || (g.lastPrint == Some((g.row, g.col)) && EndsWithZwj(contents)) then Some(lead)
      else None
  }

  function JoinWidth(g: Grid, lead: u16, ch: char): u16
    requires Shape(g) && lead < g.cols
  {
    Min(g.profile.clusterWidth(ActiveRow(g)[lead].contents + [ch]), 2)
  }

  lemma {:induction false} AppendIs(g: Grid, ch: char)
    requires Shape(g)
    ensures var r := Append(g, ch, g.profile.charWidth(ch));
            match JoinLead(g, ch)
            case Some(lead) => r == Some(ExtendCluster(g, lead, ActiveRow(g)[lead].contents + [ch]))
            case None => r == (if g.profile.charWidth(ch) == 0 then Some(g) else None)
  {
    hide ExtendCluster, ScreenShape;
  }

  lemma {:induction false} ExtendMirrorsIff(g: Grid, lead: u16, ch: char)
    requires Shape(g) && lead < g.cols && Paired(ActiveRow(g)) && !ActiveRow(g)[lead].cont
    ensures var h := ExtendCluster(g, lead, ActiveRow(g)[lead].contents + [ch]);
            var cuts := JoinCuts(ActiveRow(g), lead, JoinWidth(g, lead, ch));
            (!cuts ==> Mirrors(g, h)) && (cuts && g.dirty == CLEAN ==> !Mirrors(g, h))
  {
    hide Mirrors, Within, Paired, JoinCluster, WithActiveRow, MarkRange, ScreenShape, CursorAfterJoin, JoinCuts;
    var row := ActiveRow(g);
    var contents := row[lead].contents + [ch];
    var width := JoinWidth(g, lead, ch);
    var now := JoinCluster(row, lead, contents, g.activeLink, width);
    var h := ExtendCluster(g, lead, contents);
    assert |now| == g.cols by { JoinLength(row, lead, contents, g.activeLink, width); }
    JoinWithinIff(row, lead, contents, g.activeLink, width);
    SetRowEdits(g, h, now, lead, JoinSpan(row, lead, width));
    if JoinCuts(row, lead, width) {
      if g.dirty == CLEAN { RowEditMisses(g, h, now, lead, JoinSpan(row, lead, width)); }
    } else {
      RowEditMirrors(g, h, now, lead, JoinSpan(row, lead, width));
    }
  }

  predicate WidensOver(g: Grid, ch: char)
    requires Shape(g)
  {
    var lead := JoinLead(g, ch);
    lead.Some? && JoinCuts(ActiveRow(g), lead.value, JoinWidth(g, lead.value, ch))
  }

  lemma {:induction false} JoinLeadIsLead(g: Grid, ch: char)
    requires WF(g) && JoinLead(g, ch).Some?
    ensures Paired(ActiveRow(g)) && !ActiveRow(g)[JoinLead(g, ch).value].cont
  {
    ActiveRowOk(g);
    LeadIsNotContinuation(ActiveRow(g), JoinTarget(g).value);
  }

  lemma {:induction false} FreshCellMirrors(g: Grid, ch: char)
    requires WF(g) && JoinLead(g, ch).None?
    ensures Mirrors(g, WriteChar(g, ch))
  {
    hide Mirrors, Append, PutChar, Newline, ScreenOk, ScreenShape, Paired, JoinLead, Active;
    AppendIs(Touch(g), ch);
    TouchJoins(g, ch);
    var width := g.profile.charWidth(ch);
    var g0 := Touch(g);
    ActiveRowOk(g0);
    assert WriteChar(g, ch) == g0 || width > 0;
    TouchedMirrors(g, g0);
    if width == 0 {
    } else if g.modes.noAutowrap {
      var col := Min(g.col, g.cols - 1);
      if width <= g.cols - col {
        UnparkedMirrors(g0, col, ch, width);
        MirrorsCompose(g, g0, WriteChar(g, ch));
      }
    } else if g.pendingWrap {
      WrappedMirrors(g0, ch, width);
      MirrorsCompose(g, g0, WriteChar(g, ch));
    } else {
      PutMirrors(g0, ch, width);
      MirrorsCompose(g, g0, WriteChar(g, ch));
    }
  }

  lemma {:induction false} TouchJoins(g: Grid, ch: char)
    requires Shape(g)
    ensures JoinLead(Touch(g), ch) == JoinLead(g, ch)
    ensures ActiveRow(Touch(g)) == ActiveRow(g)
    ensures JoinLead(g, ch).Some?
        ==> JoinWidth(Touch(g), JoinLead(g, ch).value, ch) == JoinWidth(g, JoinLead(g, ch).value, ch)
  {
    hide ScreenShape;
  }

  lemma {:induction false} TouchedMirrors(g: Grid, g0: Grid)
    requires Shape(g) && g0 == Touch(g)
    ensures Mirrors(g, g0)
  {
    hide Mirrors, ScreenShape;
    Untouched(g, g0);
  }

  lemma {:induction false} UnparkedMirrors(g: Grid, col: u16, ch: char, width: nat)
    requires Shape(g) && Paired(ActiveRow(g)) && col < g.cols && 1 <= width <= 2
    ensures Mirrors(g, PutChar(g.(pendingWrap := false, col := col), ch, width))
  {
    hide Mirrors, PutChar, ScreenShape, Paired;
    var g1 := g.(pendingWrap := false, col := col);
    Untouched(g, g1);
    PutMirrors(g1, ch, width);
    MirrorsCompose(g, g1, PutChar(g1, ch, width));
  }

  lemma {:induction false} WrappedMirrors(g: Grid, ch: char, width: nat)
    requires WF(g) && 1 <= width <= 2
    ensures Mirrors(g, PutChar(Newline(g.(pendingWrap := false, col := 0), Soft), ch, width))
  {
    hide Mirrors, PutChar, Newline, ScreenOk, ScreenShape, Paired, RowOk;
    var g1 := g.(pendingWrap := false, col := 0);
    var g2 := Newline(g1, Soft);
    Untouched(g, g1);
    NewlineMirrors(g1, Soft);
    NewlineKeeps(g1, Soft);
    ActiveRowPaired(g2);
    PutMirrors(g2, ch, width);
    MirrorsCompose(g, g1, g2);
    MirrorsCompose(g, g2, PutChar(g2, ch, width));
  }

  lemma {:induction false} ActiveRowPaired(g: Grid)
    requires WF(g)
    ensures Paired(ActiveRow(g)) && RowOk(g.profile, ActiveRow(g))
  {
    ActiveRowOk(g);
  }

  lemma {:induction false} WriteMirrorsIff(g: Grid, ch: char)
    requires WF(g)
    ensures !WidensOver(g, ch) ==> Mirrors(g, WriteChar(g, ch))
    ensures WidensOver(g, ch) && g.dirty == CLEAN ==> !Mirrors(g, WriteChar(g, ch))
  {
    hide Mirrors, Append, PutChar, Newline, ScreenOk, ScreenShape, Paired, ExtendCluster, JoinCuts, JoinLead;
    if JoinLead(g, ch).None? {
      FreshCellMirrors(g, ch);
    } else {
      JoinMirrorsIff(g, ch);
    }
  }

  lemma {:induction false} JoinMirrorsIff(g: Grid, ch: char)
    requires WF(g) && JoinLead(g, ch).Some?
    ensures !WidensOver(g, ch) ==> Mirrors(g, WriteChar(g, ch))
    ensures WidensOver(g, ch) && g.dirty == CLEAN ==> !Mirrors(g, WriteChar(g, ch))
  {
    hide Mirrors, Append, PutChar, Newline, ScreenOk, ScreenShape, Paired, ExtendCluster, JoinCuts, JoinLead, Active;
    var g0 := Touch(g);
    var lead := JoinLead(g, ch).value;
    TouchJoins(g, ch);
    AppendIs(g0, ch);
    JoinLeadIsLead(g, ch);
    ExtendMirrorsIff(g0, lead, ch);
    var h := ExtendCluster(g0, lead, ActiveRow(g0)[lead].contents + [ch]);
    assert WriteChar(g, ch) == h;
    TouchSame(g, g0, h);
  }

  /** The bookkeeping bit plays no part in mirroring. */
  lemma {:induction false} TouchSame(g: Grid, g0: Grid, h: Grid)
    requires Shape(g) && g0 == Touch(g)
    ensures Mirrors(g, h) <==> Mirrors(g0, h)
  {
    hide ScreenShape, Covers;
  }

  // ---- erasing and in-row edits ----

  lemma {:induction false} EditMirrorsIff(g: Grid, h: Grid, now: Row, start: u16, end: u16, cuts: bool)
    requires RowEdited(g, h, now, start, end) && (Within(ActiveRow(g), now, start, end) <==> !cuts)
    ensures !cuts ==> Mirrors(g, h)
    ensures cuts && g.dirty == CLEAN ==> !Mirrors(g, h)
  {
    hide Mirrors, RowEdited, Within;
    if !cuts {
      RowEditMirrors(g, h, now, start, end);
    } else if g.dirty == CLEAN {
      RowEditMisses(g, h, now, start, end);
    }
  }

  /** Whether EL with this mode cuts a wide pair at its boundary. */
  predicate EraseLineCuts(g: Grid, mode: u16)
    requires Shape(g)
  {
    || (mode == 0 && EraseCuts(ActiveRow(g), g.col, g.cols))
    || (mode == 1 && EraseCuts(ActiveRow(g), 0, Min(g.col, g.cols - 1) + 1))
  }

  lemma {:induction false} EraseLineMirrorsIff(g: Grid, mode: u16)
    requires WF(g)
    ensures !EraseLineCuts(g, mode) ==> Mirrors(g, EraseLine(g, mode))
    ensures EraseLineCuts(g, mode) && g.dirty == CLEAN ==> !Mirrors(g, EraseLine(g, mode))
  {
    hide Mirrors, Within, EraseCells, ScreenOk, ScreenShape, Paired, RowOk, MarkRange, WithActiveRow, EraseCuts,
      PenBlankRow, RowEdited;
    ActiveRowPaired(g);
    var h, row := EraseLine(g, mode), ActiveRow(g);
    if mode == 0 {
      var now := EraseCells(row, g.col, g.cols, PenBlank(g));
      EraseWithinIff(row, g.col, g.cols, PenBlank(g));
      SetRowEdits(g, h, now, g.col, g.cols);
      EditMirrorsIff(g, h, now, g.col, g.cols, EraseLineCuts(g, mode));
    } else if mode == 1 {
      var end := Min(g.col, g.cols - 1) + 1;
      var now := EraseCells(row, 0, end, PenBlank(g));
      EraseWithinIff(row, 0, end, PenBlank(g));
      SetRowEdits(g, h, now, 0, SatAdd(g.col, 1));
      assert Within(row, now, 0, SatAdd(g.col, 1)) <==> Within(row, now, 0, end) by {
        WithinMargin(row, now, end, SatAdd(g.col, 1));
      }
      EditMirrorsIff(g, h, now, 0, SatAdd(g.col, 1), EraseLineCuts(g, mode));
    } else if mode == 2 {
      assert |PenBlankRow(g)| == g.cols && Within(row, PenBlankRow(g), 0, U16_MAX) by { WholeRowWithin(g); }
      SetRowEdits(g, h, PenBlankRow(g), 0, U16_MAX);
      RowEditMirrors(g, h, PenBlankRow(g), 0, U16_MAX);
    } else {
      Untouched(g, h);
    }
  }

  lemma {:induction false} WithinMargin(row: Row, now: Row, end: nat, mark: nat)
    requires end == mark || (end == |row| <= mark)
    ensures Within(row, now, 0, mark) <==> Within(row, now, 0, end)
  {
  }

  lemma {:induction false} WholeRowWithin(g: Grid)
    requires Shape(g)
    ensures |PenBlankRow(g)| == g.cols && Within(ActiveRow(g), PenBlankRow(g), 0, U16_MAX)
  {
  }

  predicate EraseCharsCuts(g: Grid, n: u16)
    requires Shape(g)
  {
    EraseCuts(ActiveRow(g), g.col, Min(g.col + Max(n, 1), g.cols))
  }

  lemma {:induction false} EraseCharsMirrorsIff(g: Grid, n: u16)
    requires WF(g)
    ensures !EraseCharsCuts(g, n) ==> Mirrors(g, EraseChars(g, n))
    ensures EraseCharsCuts(g, n) && g.dirty == CLEAN ==> !Mirrors(g, EraseChars(g, n))
  {
    hide Mirrors, Within, EraseCells, ScreenOk, ScreenShape, Paired, RowOk, MarkRange, WithActiveRow, EraseCuts,
      RowEdited;
    ActiveRowPaired(g);
    var h, row, end := EraseChars(g, n), ActiveRow(g), Min(g.col + Max(n, 1), g.cols);
    var now := EraseCells(row, g.col, end, PenBlank(g));
    EraseWithinIff(row, g.col, end, PenBlank(g));
    SetRowEdits(g, h, now, g.col, end);
    EditMirrorsIff(g, h, now, g.col, end, EraseCharsCuts(g, n));
  }

  lemma {:induction false} ShiftCharsMirrorsIff(g: Grid, n: u16)
    requires WF(g)
    ensures !InsertCuts(ActiveRow(g), g.col) ==> Mirrors(g, InsertChars(g, n))
    ensures InsertCuts(ActiveRow(g), g.col) && g.dirty == CLEAN ==> !Mirrors(g, InsertChars(g, n))
    ensures !DeleteCuts(ActiveRow(g), g.col, Max(n, 1)) ==> Mirrors(g, DeleteChars(g, n))
    ensures DeleteCuts(ActiveRow(g), g.col, Max(n, 1)) && g.dirty == CLEAN ==> !Mirrors(g, DeleteChars(g, n))
  {
    hide Mirrors, Within, InsertCells, DeleteCells, ScreenOk, ScreenShape, Paired, RowOk, MarkRange, WithActiveRow,
      InsertCuts, DeleteCuts, RowEdited;
    ActiveRowPaired(g);
    var row, n1 := ActiveRow(g), Max(n, 1);
    InsertWithinIff(g.profile, row, g.col, n1);
    DeleteWithinIff(g.profile, row, g.col, n1);
    var ins, del := InsertCells(row, g.col, n1), DeleteCells(row, g.col, n1);
    assert |ins| == |row| && |del| == |row| by {
      InsertCellsOk(g.profile, row, g.col, n1);
      DeleteCellsOk(g.profile, row, g.col, n1);
    }
    SetRowEdits(g, InsertChars(g, n), ins, g.col, g.cols);
    SetRowEdits(g, DeleteChars(g, n), del, g.col, g.cols);
    EditMirrorsIff(g, InsertChars(g, n), ins, g.col, g.cols, InsertCuts(row, g.col));
    EditMirrorsIff(g, DeleteChars(g, n), del, g.col, g.cols, DeleteCuts(row, g.col, n1));
  }

  // ---- everything else ----

  lemma {:induction false} EraseDisplayMirrors(g: Grid, mode: u16)
    requires Shape(g)
    ensures EraseDisplay(g, mode).dirty.AllDirty?
  {
    hide EraseCells, BlankRows, Preserve, WithActiveRow, ScreenShape;
  }

  lemma {:induction false} LinesMirror(g: Grid, n: u16)
    requires Shape(g)
    ensures Mirrors(g, InsertLinesAt(g, n)) && Mirrors(g, DeleteLinesAt(g, n)) && Mirrors(g, ScrollDownBy(g, n))
  {
    hide ShiftUp, ShiftDown, ScreenShape, Faithful;
    if !(g.scrollTop <= g.row <= g.scrollBottom) { Untouched(g, g); }
  }

  lemma {:induction false} ReverseMirrors(g: Grid)
    requires Shape(g)
    ensures Mirrors(g, ReverseIndex(g))
  {
    hide ShiftDown, ScreenShape, Faithful;
    if ClearPendingWrap(g).row != g.scrollTop { Untouched(g, ReverseIndex(g)); }
  }

  lemma {:induction false} ModeMirrors(g: Grid, mode: u16, on: bool)
    requires Shape(g)
    ensures Mirrors(g, SetDecMode(g, mode, on))
  {
    hide FlagsAfter, MouseAfter, EncodingAfter, Announced, ScreenShape, Faithful;
    if !(mode == 47 || mode == 1047 || mode == 1049) {
      FlagsKeepAlt(g.modes, mode, on);
      Untouched(g, SetDecMode(g, mode, on));
    }
  }

  lemma {:induction false} ModesMirror(g: Grid, modes: seq<u16>, on: bool)
    requires Shape(g)
    ensures Mirrors(g, SetDecModes(g, modes, on))
    decreases |modes|
  {
    hide SetDecMode, Mirrors, ScreenShape;
    if modes == [] {
      Untouched(g, g);
    } else {
      var g1 := SetDecMode(g, modes[0], on);
      ModeMirrors(g, modes[0], on);
      ModesMirror(g1, modes[1..], on);
      MirrorsCompose(g, g1, SetDecModes(g1, modes[1..], on));
    }
  }

  lemma {:induction false} ExecuteMirrors(g: Grid, byte: u8)
    requires Shape(g)
    ensures Mirrors(g, Execute(g, byte))
  {
    hide Mirrors, Newline, ScreenShape;
    if 0x0a <= byte <= 0x0c {
      var g1 := ClearPendingWrap(g);
      Untouched(g, g1);
      NewlineMirrors(g1, Hard);
      MirrorsCompose(g, g1, Newline(g1, Hard));
    } else {
      Untouched(g, Execute(g, byte));
    }
  }

  lemma {:induction false} CursorMirrors(g: Grid, m: Move, top: u16, bottom: u16)
    requires Shape(g)
    ensures Mirrors(g, MoveCursor(g, m)) && Mirrors(g, SetRegion(g, top, bottom))
    ensures Mirrors(g, RestoreSavedCursor(g)) && Mirrors(g, SaveCursor(g)) && Mirrors(g, SoftReset(g))
  {
    hide Mirrors, RowAfter, ColAfter, ScreenShape;
    Untouched(g, MoveCursor(g, m));
    Untouched(g, SetRegion(g, top, bottom));
    Untouched(g, RestoreSavedCursor(g));
    Untouched(g, SaveCursor(g));
    Untouched(g, SoftReset(g));
  }

  lemma {:induction false} PlainMirrors(g: Grid, e: Event)
    requires Shape(g) && PlainEvent(e)
    ensures Mirrors(g, Step(g, e))
  {
    hide Mirrors, Step, ScreenShape;
    PlainFrame(g, e);
    Untouched(g, Step(g, e));
  }

  /** The events whose marks can fall short of their effect, and when they do. */
  predicate Overreaches(g: Grid, e: Event)
    requires Shape(g)
  {
    match e
    case Print(ch) => WidensOver(g, ch)
    case EraseInLine(mode) => EraseLineCuts(g, mode)
    case EraseCharacters(n) => EraseCharsCuts(g, n)
    case InsertCharacters(_) => InsertCuts(ActiveRow(g), g.col)
    case DeleteCharacters(n) => DeleteCuts(ActiveRow(g), g.col, Max(n, 1))
    case _ => false
  }

  lemma {:induction false} RowStepMirrorsIff(g: Grid, e: Event)
    requires WF(g)
    requires e.Print? || e.EraseInLine? || e.EraseCharacters? || e.InsertCharacters? || e.DeleteCharacters?
    ensures !Overreaches(g, e) ==> Mirrors(g, Step(g, e))
    ensures Overreaches(g, e) && g.dirty == CLEAN ==> !Mirrors(g, Step(g, e))
  {
    hide Mirrors, WF, Shape, WriteChar, EraseLine, EraseChars, InsertChars, DeleteChars, WidensOver, EraseLineCuts,
      EraseCharsCuts, InsertCuts, DeleteCuts;
    assert Shape(g) by { WFShape(g); }
    match e {
      case Print(ch) => WriteMirrorsIff(g, ch);
      case EraseInLine(mode) => EraseLineMirrorsIff(g, mode);
      case EraseCharacters(n) => EraseCharsMirrorsIff(g, n);
      case InsertCharacters(n) => ShiftCharsMirrorsIff(g, n);
      case DeleteCharacters(n) => ShiftCharsMirrorsIff(g, n);
    }
  }

  lemma {:induction false} EverythingMirrors(g: Grid, h: Grid)
    requires h.dirty.AllDirty?
    ensures Mirrors(g, h)
  {
  }

  lemma {:induction false} ResetMirrors(g: Grid, e: Event)
    requires Shape(g) && EventOk(e) && (e.ResetFull? || e.SetSize?)
    ensures Mirrors(g, Step(g, e))
  {
    hide Faithful, Shape, Step, BlankScreen, ResizeScreen;
    StepReset(g, e);
  }

  lemma {:induction false} ScreenStepMirrors(g: Grid, e: Event)
    requires Shape(g) && EventOk(e)
    requires !(e.Print? || e.EraseInLine? || e.EraseCharacters? || e.InsertCharacters? || e.DeleteCharacters?)
    ensures Mirrors(g, Step(g, e))
  {
    hide Mirrors, Faithful, Shape, Execute, MoveCursor, EraseDisplay, InsertLinesAt, DeleteLinesAt, ScrollUp,
      ScrollDownBy, ReverseIndex, SetDecModes, SetRegion, SaveCursor, RestoreSavedCursor, SoftReset, FullReset, Resize,
      Sgr.ApplySgr, ModeStatus;
    match e {
      case Control(byte) => ExecuteMirrors(g, byte);
      case Cursor(m) => CursorMirrors(g, m, 0, 0);
      case EraseInDisplay(mode) =>
        EraseDisplayMirrors(g, mode);
        EverythingMirrors(g, EraseDisplay(g, mode));
      case InsertLines(n) => LinesMirror(g, n);
      case DeleteLines(n) => LinesMirror(g, n);
      case ScrollUpBy(n) => ScrollMirrors(g, Max(n, 1), Hard);
      case ScrollDown(n) => LinesMirror(g, n);
      case ReverseLine => ReverseMirrors(g);
      case PrivateModes(modes, on) => ModesMirror(g, modes, on);
      case Region(top, bottom) => CursorMirrors(g, Up(1), top, bottom);
      case Save => CursorMirrors(g, Up(1), 0, 0);
      case Restore => CursorMirrors(g, Up(1), 0, 0);
      case ResetSoft => CursorMirrors(g, Up(1), 0, 0);
      case ResetFull => ResetMirrors(g, e);
      case SetSize(rows, cols) => ResetMirrors(g, e);
      case _ => PlainMirrors(g, e);
    }
  }

  /**
    * One event, exactly: starting from a drained tracker its marks cover every cell it changes if and only if it does
    * not cut a wide pair (or fill columns) outside them; and an event that does not never loses a cell, whatever was
    * already marked.
    */
  lemma {:induction false} StepMirrorsIff(g: Grid, e: Event)
    requires WF(g) && EventOk(e)
    ensures !Overreaches(g, e) ==> Mirrors(g, Step(g, e))
    ensures g.dirty == CLEAN ==> (Mirrors(g, Step(g, e)) <==> !Overreaches(g, e))
  {
    hide Mirrors, Step, ScreenOk, ScreenShape;
    if e.Print? || e.EraseInLine? || e.EraseCharacters? || e.InsertCharacters? || e.DeleteCharacters? {
      RowStepMirrorsIff(g, e);
    } else {
      ScreenStepMirrors(g, e);
    }
  }

  /**
    * The marks do fall short, in a state the grid reaches: a wide glyph is printed on two columns, the cursor moves
    * onto its second half, damage is drained; then EL 0 blanks the first half without marking it.
    */
  lemma {:induction false} EraseLosesDamage(p: Profile, c: char, limit: nat)
    requires p.charWidth(c) == 2
    ensures var g := Step(Step(Fresh(p, 1, 2, limit), Print(c)), Cursor(To(1, 2))).(dirty := CLEAN);
            WF(g) && !Mirrors(g, Step(g, EraseInLine(0)))
  {
    hide Step, Mirrors, PutGlyph, ScreenOk, ScreenShape;
    var f := Fresh(p, 1, 2, limit);
    FreshIsWF(p, 1, 2, limit);
    assert PrintsAt(f, Pos(0, 0)) by { FreshPrints(p, limit); }
    StepPrint(f, c, Pos(0, 0));
    var h := Step(f, Print(c));
    StepMove(h, To(1, 2));
    var g := Step(h, Cursor(To(1, 2))).(dirty := CLEAN);
    assert EraseCuts(ActiveRow(g), 1, 2);
    StepMirrorsIff(g, EraseInLine(0));
  }

  lemma {:induction false} FreshPrints(p: Profile, limit: nat)
    ensures PrintsAt(Fresh(p, 1, 2, limit), Pos(0, 0))
  {
    FreshIsWF(p, 1, 2, limit);
  }

  /** No event of the run, in the state it meets, reaches past its marks. */
  predicate StaysMarked(g: Grid, es: seq<Event>)
    requires Shape(g) && EventsOk(es)
    decreases |es|
  {
    es == [] || (!Overreaches(g, es[0]) && StaysMarked(Step(g, es[0]), es[1..]))
  }

  lemma {:induction false} RunMirrors(g: Grid, es: seq<Event>)
    requires WF(g) && EventsOk(es) && StaysMarked(g, es)
    ensures Mirrors(g, Run(g, es))
    decreases |es|
  {
    hide Mirrors, Step, ScreenOk, ScreenShape, Overreaches;
    if es == [] {
      Untouched(g, g);
    } else {
      var g1 := Step(g, es[0]);
      StepMirrorsIff(g, es[0]);
      assert WF(g1) by { StepKeeps(g, es[0]); }
      RunMirrors(g1, es[1..]);
      MirrorsCompose(g, g1, Run(g1, es[1..]));
    }
  }
}
