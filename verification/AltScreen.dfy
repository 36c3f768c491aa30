/** The alternate-screen bracket: what happens between `?1049h` and `?1049l` leaves the primary screen alone. */
module AltScreen {
  import opened Basics
  import opened Cells
  import opened Rows
  import opened Damage
  import opened GridModel
  import opened Invariant
  import opened Replay

  predicate SwitchesScreen(mode: u16) {
    mode == 47 || mode == 1047 || mode == 1049
  }

  predicate KeepsScreen(modes: seq<u16>) {
    forall i | 0 <= i < |modes| :: !SwitchesScreen(modes[i])
  }

  /** Events that neither overwrite the saved cursor nor leave the alternate screen nor change the size. */
  predicate Inside(e: Event) {
    && !e.Save? && !e.ResetSoft? && !e.ResetFull? && !e.SetSize?
    && (e.PrivateModes? ==> KeepsScreen(e.modes))
  }

  predicate AllInside(es: seq<Event>) {
    forall i | 0 <= i < |es| :: Inside(es[i])
  }

  predicate ClearsHistory(e: Event) {
    e == EraseInDisplay(3)
  }

  /** Everything a program on the alternate screen cannot reach. */
  predicate Sheltered(g: Grid, h: Grid) {
    && h.rows == g.rows && h.cols == g.cols
    && h.primary == g.primary && h.modes.alt == g.modes.alt
    && h.savedRow == g.savedRow && h.savedCol == g.savedCol
  }

  /** Sheltered, with scrollback and the view offset untouched as well. */
  predicate Kept(g: Grid, h: Grid) {
    Sheltered(g, h) && h.history.scrollback == g.history.scrollback && h.history.offset == g.history.offset
  }

  lemma {:induction false} RowKept(g: Grid, row: Row)
    requires Shape(g) && g.modes.alt && |row| == g.cols
    ensures Kept(g, WithActiveRow(g, row)) && WithActiveRow(g, row).row == g.row && WithActiveRow(g, row).col == g.col
    ensures WithActiveRow(g, row).dirty == g.dirty
  {
    hide ScreenShape;
  }

  lemma {:induction false} ScrollKept(g: Grid, count: u16, wrap: RowWrap)
    requires Shape(g) && g.modes.alt
    ensures Kept(g, ScrollUp(g, count, wrap))
  {
    hide ShiftUp, ScreenShape, MarkRows;
  }

  lemma {:induction false} NewlineKept(g: Grid, wrap: RowWrap)
    requires Shape(g) && g.modes.alt
    ensures Kept(g, Newline(g, wrap))
  {
    hide ScrollUp, ScreenShape;
    if g.row == g.scrollBottom { ScrollKept(g, 1, wrap); }
  }

  lemma {:induction false} PutKept(g: Grid, ch: char, width: nat)
    requires Shape(g) && g.modes.alt && 1 <= width <= 2
    ensures Kept(g, PutChar(g, ch, width))
  {
    hide ScreenShape, PutGlyph, MarkRange, PutEnd, PutStart, WithActiveRow;
    if g.col < g.cols {
      RowKept(g, PutGlyph(ActiveRow(g), g.col, Cell([ch], width > 1, false, g.pen, g.activeLink)));
    }
  }

  lemma {:induction false} ExtendKept(g: Grid, lead: u16, contents: string)
    requires Shape(g) && g.modes.alt && lead < g.cols
    ensures Kept(g, ExtendCluster(g, lead, contents))
  {
    hide ScreenShape, JoinCluster, MarkRange, CursorAfterJoin, WithActiveRow;
    var row := JoinCluster(ActiveRow(g), lead, contents, g.activeLink, Min(g.profile.clusterWidth(contents), 2));
    assert |row| == g.cols by {
      JoinLength(ActiveRow(g), lead, contents, g.activeLink, Min(g.profile.clusterWidth(contents), 2));
    }
    RowKept(g, row);
  }

  lemma {:induction false} WriteKept(g: Grid, ch: char)
    requires Shape(g) && g.modes.alt
    ensures Kept(g, WriteChar(g, ch))
  {
    hide ScreenShape, ExtendCluster, PutChar, Newline;
    var g0 := Touch(g);
    var width := g.profile.charWidth(ch);
    var target := JoinTarget(g0);
    if Append(g0, ch, width).Some? {
      if target.Some? {
        var lead := LeadOf(ActiveRow(g0), target.value);
        ExtendKept(g0, lead, ActiveRow(g0)[lead].contents + [ch]);
      }
    } else if g0.modes.noAutowrap {
      if width <= g0.cols - Min(g0.col, g0.cols - 1) {
        PutKept(g0.(pendingWrap := false, col := Min(g0.col, g0.cols - 1)), ch, width);
      }
    } else if g0.pendingWrap {
      var g1 := g0.(pendingWrap := false, col := 0);
      NewlineKept(g1, Soft);
      PutKept(Newline(g1, Soft), ch, width);
    } else {
      PutKept(g0, ch, width);
    }
  }

  lemma {:induction false} ControlKept(g: Grid, byte: u8)
    requires Shape(g) && g.modes.alt
    ensures Kept(g, Execute(g, byte))
  {
    hide ScreenShape, Newline;
    NewlineKept(ClearPendingWrap(g), Hard);
  }

  lemma {:induction false} EraseLineKept(g: Grid, mode: u16)
    requires Shape(g) && g.modes.alt
    ensures Kept(g, EraseLine(g, mode))
  {
    hide ScreenShape, EraseCells, MarkRange, PenBlankRow, WithActiveRow;
    RowKept(g, EraseCells(ActiveRow(g), g.col, g.cols, PenBlank(g)));
    RowKept(g, EraseCells(ActiveRow(g), 0, Min(g.col, g.cols - 1) + 1, PenBlank(g)));
    RowKept(g, PenBlankRow(g)) by { PenRowLength(g); }
  }

  lemma {:induction false} InRowKept(g: Grid, n: u16)
    requires Shape(g) && g.modes.alt
    ensures Kept(g, EraseChars(g, n)) && Kept(g, InsertChars(g, n)) && Kept(g, DeleteChars(g, n))
  {
    hide ScreenShape, EraseCells, InsertCells, DeleteCells, MarkRange, WithActiveRow;
    var end := Min(g.col + Max(n, 1), g.cols);
    RowKept(g, EraseCells(ActiveRow(g), Min(g.col, end), end, PenBlank(g)));
    RowKept(g, InsertCells(ActiveRow(g), g.col, Max(n, 1))) by { EditLengths(ActiveRow(g), g.col, Max(n, 1)); }
    RowKept(g, DeleteCells(ActiveRow(g), g.col, Max(n, 1))) by { EditLengths(ActiveRow(g), g.col, Max(n, 1)); }
  }

  lemma {:induction false} BlankKept(g: Grid, from: nat, to: nat)
    requires Shape(g) && g.modes.alt && from <= to <= g.rows
    ensures Kept(g, BlankRows(g, from, to)) && BlankRows(g, from, to).history == g.history
    ensures BlankRows(g, from, to).row == g.row && BlankRows(g, from, to).col == g.col
  {
    hide ScreenShape, PenBlankRow;
  }

  /** ED on the alternate screen; mode 3 empties the scrollback and rewinds the view. */
  lemma {:induction false} EraseDisplayKept(g: Grid, mode: u16)
    requires Shape(g) && g.modes.alt
    ensures var h := EraseDisplay(g, mode);
            && Sheltered(g, h)
            && (mode != 3 ==> Kept(g, h))
            && (mode == 3 ==> h.history.scrollback == Screen([], []) && h.history.offset == 0)
  {
    hide ScreenShape, EraseCells, BlankRows, WithActiveRow;
    match mode {
      case 0 =>
        var row := EraseCells(ActiveRow(g), g.col, g.cols, PenBlank(g));
        RowKept(g, row);
        BlankKept(WithActiveRow(g, row), g.row + 1, g.rows);
      case 1 =>
        BlankKept(g, 0, g.row);
        var g1 := BlankRows(g, 0, g.row);
        RowKept(g1, EraseCells(ActiveRow(g1), 0, Min(g1.col, g1.cols - 1) + 1, PenBlank(g1)));
      case 2 =>
        BlankKept(g, 0, g.rows);
      case 3 =>
        BlankKept(g.(history := Forget(g.history)), 0, g.rows);
      case _ =>
    }
  }

  lemma {:induction false} LinesKept(g: Grid, n: u16)
    requires Shape(g) && g.modes.alt
    ensures Kept(g, InsertLinesAt(g, n)) && Kept(g, DeleteLinesAt(g, n)) && Kept(g, ScrollDownBy(g, n))
    ensures Kept(g, ReverseIndex(g))
  {
    hide ScreenShape, ShiftUp, ShiftDown;
  }

  lemma {:induction false} ModesKept(g: Grid, modes: seq<u16>, on: bool)
    requires Shape(g) && g.modes.alt && KeepsScreen(modes)
    ensures Kept(g, SetDecModes(g, modes, on))
    decreases |modes|
  {
    hide ScreenShape, FlagsAfter, MouseAfter, EncodingAfter, Announced;
    if modes != [] {
      assert !SwitchesScreen(modes[0]);
      var h := SetDecMode(g, modes[0], on);
      FlagsKeepAlt(g.modes, modes[0], on);
      ModesKept(h, modes[1..], on);
    }
  }

  lemma {:induction false} SettingsKept(g: Grid, e: Event)
    requires Shape(g) && g.modes.alt
    requires e.Cursor? || e.Region? || e.Restore?
    ensures Kept(g, Step(g, e))
  {
    hide ScreenShape, RowAfter, ColAfter;
  }

  predicate MovesRows(e: Event) {
    e.InsertLines? || e.DeleteLines? || e.ScrollUpBy? || e.ScrollDown? || e.ReverseLine?
  }

  lemma {:induction false} RowEditInside(g: Grid, e: Event)
    requires Shape(g) && g.modes.alt && EditsRow(e)
    ensures Kept(g, Step(g, e))
  {
    hide Step, EraseLine, EraseChars, InsertChars, DeleteChars, Shape, Kept;
    StepRowEdit(g, e);
    match e {
      case EraseInLine(mode) => EraseLineKept(g, mode);
      case EraseCharacters(n) => InRowKept(g, n);
      case InsertCharacters(n) => InRowKept(g, n);
      case DeleteCharacters(n) => InRowKept(g, n);
    }
  }

  lemma {:induction false} MoveRowsInside(g: Grid, e: Event)
    requires Shape(g) && g.modes.alt && MovesRows(e)
    ensures Kept(g, Step(g, e))
  {
    hide Step, InsertLinesAt, DeleteLinesAt, ScrollUp, ScrollDownBy, ReverseIndex, Shape, Kept;
    StepLines(g, e);
    match e {
      case InsertLines(n) => LinesKept(g, n);
      case DeleteLines(n) => LinesKept(g, n);
      case ScrollDown(n) => LinesKept(g, n);
      case ReverseLine => LinesKept(g, 1);
      case ScrollUpBy(n) => ScrollKept(g, Max(n, 1), Hard);
    }
  }

  lemma {:induction false} PlainInside(g: Grid, e: Event)
    requires Shape(g) && g.modes.alt && PlainEvent(e)
    ensures Kept(g, Step(g, e))
  {
    hide Step, ScreenShape;
    PlainFrame(g, e);
  }

  lemma {:induction false} StepInside(g: Grid, e: Event)
    requires Shape(g) && g.modes.alt && EventOk(e) && Inside(e)
    ensures var h := Step(g, e);
            && Sheltered(g, h)
            && (!ClearsHistory(e) ==> Kept(g, h))
            && (ClearsHistory(e) ==> h.history.scrollback == Screen([], []) && h.history.offset == 0)
  {
    hide Shape, Step, Sheltered, KeepsScreen, Execute, WriteChar, EraseDisplay, SetDecModes;
    StepText(g, e);
    match e {
      case Print(ch) => WriteKept(g, ch);
      case Control(byte) => ControlKept(g, byte);
      case EraseInDisplay(mode) => EraseDisplayKept(g, mode);
      case PrivateModes(modes, on) => ModesKept(g, modes, on);
      case Cursor(m) => SettingsKept(g, e);
      case Region(top, bottom) => SettingsKept(g, e);
      case Restore => SettingsKept(g, e);
      case _ =>
        if EditsRow(e) {
          RowEditInside(g, e);
        } else if MovesRows(e) {
          MoveRowsInside(g, e);
        } else {
          PlainInside(g, e);
        }
    }
  }

  /** A whole run inside the bracket. */
  lemma {:induction false} RunInside(g: Grid, es: seq<Event>)
    requires Shape(g) && g.modes.alt && EventsOk(es) && AllInside(es)
    ensures var h := Run(g, es);
            && Sheltered(g, h)
            && ((exists i | 0 <= i < |es| :: ClearsHistory(es[i]))
                 ==> h.history.scrollback == Screen([], []) && h.history.offset == 0)
            && ((forall i | 0 <= i < |es| :: !ClearsHistory(es[i])) ==> Kept(g, h))
    decreases |es|
  {
    hide Step, ScreenShape, Shape, EventOk;
    if es != [] {
      var g1, rest := Step(g, es[0]), es[1..];
      StepInside(g, es[0]);
      RunInside(g1, rest);
      RunInsideCombines(g, g1, Run(g1, rest), es);
    }
  }

  lemma {:induction false} RunInsideCombines(g: Grid, g1: Grid, h: Grid, es: seq<Event>)
    requires es != [] && Sheltered(g, g1) && Sheltered(g1, h)
    requires !ClearsHistory(es[0]) ==> Kept(g, g1)
    requires ClearsHistory(es[0]) ==> g1.history.scrollback == Screen([], []) && g1.history.offset == 0
    requires var rest := es[1..];
             && ((exists i | 0 <= i < |rest| :: ClearsHistory(rest[i]))
                  ==> h.history.scrollback == Screen([], []) && h.history.offset == 0)
             && ((forall i | 0 <= i < |rest| :: !ClearsHistory(rest[i])) ==> Kept(g1, h))
    ensures Sheltered(g, h)
    ensures (exists i | 0 <= i < |es| :: ClearsHistory(es[i]))
        ==> h.history.scrollback == Screen([], []) && h.history.offset == 0
    ensures (forall i | 0 <= i < |es| :: !ClearsHistory(es[i])) ==> Kept(g, h)
  {
    var rest := es[1..];
    assert forall i | 0 <= i < |rest| :: rest[i] == es[i + 1];
    if i :| 0 <= i < |es| && ClearsHistory(es[i]) {
      assert i > 0 ==> rest[i - 1] == es[i];
      if forall j | 0 <= j < |rest| :: !ClearsHistory(rest[j]) {
        assert i == 0;
      }
    }
  }

  const ENTER: Event := PrivateModes([1049], true)
  const LEAVE: Event := PrivateModes([1049], false)

  lemma {:induction false} EnterEffect(g: Grid)
    requires Shape(g)
    ensures var h := Step(g, ENTER);
            && h.rows == g.rows && h.cols == g.cols && h.primary == g.primary && h.modes.alt
            && h.savedRow == g.row && h.savedCol == g.col && h.history == g.history
  {
    hide ScreenShape;
    assert SetDecModes(g, [1049], true) == SetDecMode(g, 1049, true);
  }

  lemma {:induction false} LeaveEffect(g: Grid)
    requires Shape(g) && g.savedRow < g.rows && g.savedCol <= g.cols
    ensures var h := Step(g, LEAVE);
            && h.primary == g.primary && !h.modes.alt && h.history == g.history && h.rows == g.rows && h.cols == g.cols
            && h.row == g.savedRow && h.col == g.savedCol && (h.pendingWrap <==> g.savedCol == g.cols)
  {
    hide ScreenShape;
    assert SetDecModes(g, [1049], false) == SetDecMode(g, 1049, false);
  }

  /**
    * The bracket: primary cells and wrap flags come back unchanged, the cursor comes back with its deferred wrap, and
    * scrollback is what it was unless an ED 3 was issued, in which case it is empty.
    */
  lemma {:induction false} BracketRestores(g: Grid, es: seq<Event>)
    requires WF(g) && EventsOk(es) && AllInside(es)
    ensures EventsOk([ENTER] + es + [LEAVE])
    ensures var s := Run(g, [ENTER] + es + [LEAVE]);
            && s.primary == g.primary && !s.modes.alt && s.rows == g.rows && s.cols == g.cols
            && s.row == g.row && s.col == g.col && s.pendingWrap == g.pendingWrap
            && s.history.scrollback ==
                 (if exists i | 0 <= i < |es| :: ClearsHistory(es[i]) then Screen([], []) else g.history.scrollback)
  {
    hide Step, Run, ScreenShape, ScreenOk;
    var a := Step(g, ENTER);
    EnterEffect(g);
    var b := Run(a, es);
    RunInside(a, es);
    LeaveEffect(b);
    RunOne(g, ENTER);
    RunOne(b, LEAVE);
    RunSplit(g, [ENTER], es);
    RunSplit(g, [ENTER] + es, [LEAVE]);
  }
}
