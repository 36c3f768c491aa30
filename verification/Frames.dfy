/** What each event touches, and so everything it leaves alone (src/grid.rs, src/grid/perform.rs). */
module Frames {
  import opened Basics
  import opened Cells
  import opened Rows
  import opened Damage
  import opened GridModel
  import opened Invariant
  import opened Erasing
  import opened DeferredWrap
  import opened AltScreen
  import opened Editing
  import opened Provenance
  import opened Settings
  import Sgr

  /** Rows, scrollback, and their records. */
  ghost predicate OnlyRows(g: Grid, h: Grid) {
    h == g.(primary := h.primary, alternate := h.alternate, history := h.history, scrollOps := h.scrollOps,
            dirty := h.dirty)
  }

  /** The cursor, unparked, with no cluster left to join. */
  ghost predicate Unparks(g: Grid, h: Grid, row: int, col: int)
    requires 0 <= row <= U16_MAX && 0 <= col <= U16_MAX
  {
    h == g.(row := row, col := col, pendingWrap := false, lastPrint := None)
  }

  /** The modes that are not screen switches. */
  ghost predicate OnlyModes(g: Grid, h: Grid) {
    && h == g.(modes := h.modes, mouseMode := h.mouseMode, mouseEncoding := h.mouseEncoding,
               textCursor := h.textCursor, passthrough := h.passthrough)
    && h.modes.alt == g.modes.alt && h.modes.appKeypad == g.modes.appKeypad
  }

  /** Exactly what a control other than LF, VT and FF does. */
  ghost predicate ControlTouches(g: Grid, h: Grid, byte: u8) {
    if byte == 0x07 then h == g.(passthrough := g.passthrough + [BellRang])
    else if byte == 0x08 then
      if g.pendingWrap then g.cols >= 1 && Unparks(g, h, g.row, g.cols - 1)
      else h == g.(col := if g.col == 0 then 0 else g.col - 1)
    else if byte == 0x09 then Unparks(g, h, g.row, h.col)
    else if byte == 0x0d then Unparks(g, h, g.row, 0)
    else h == g
  }

  /** The fields an event may touch; where that is all there is to say, their new values. */
  ghost predicate Touches(g: Grid, h: Grid, e: Event) {
    match e
    case Print(_) => OnlyText(g, h)
    case Control(byte) =>
      if 0x0a <= byte <= 0x0c then OnlyText(g, h) && h.lastPrint.None? && !h.pendingWrap
      else ControlTouches(g, h, byte)
    case Cursor(_) => Unparks(g, h, h.row, h.col)
    case EraseInDisplay(mode) =>
      && OnlyRows(g, h.(passthrough := g.passthrough))
      && h.passthrough == g.passthrough + (if mode == 3 then [ScrollbackCleared] else [])
    case EraseInLine(_) => OnlyRows(g, h) && h.history == g.history
    case EraseCharacters(_) => OnlyRows(g, h) && h.history == g.history
    case InsertCharacters(_) => OnlyRows(g, h) && h.history == g.history
    case DeleteCharacters(_) => OnlyRows(g, h) && h.history == g.history
    case InsertLines(_) => OnlyRows(g, h) && h.history == g.history && Inactive(h) == Inactive(g)
    case DeleteLines(_) => OnlyRows(g, h) && h.history == g.history && Inactive(h) == Inactive(g)
    case ScrollDown(_) => OnlyRows(g, h) && h.history == g.history && Inactive(h) == Inactive(g)
    case ScrollUpBy(_) =>
      && OnlyRows(g, h) && Inactive(h) == Inactive(g)
      && h.history == g.history.(scrollback := h.history.scrollback, mutated := true)
    case ReverseLine =>
      && g.cols >= 1 && OnlyRows(g.(row := h.row, col := Min(g.col, g.cols - 1), pendingWrap := false,
         lastPrint := None), h)
      && h.history == g.history && Inactive(h) == Inactive(g)
    case Graphics(params) => h == g.(pen := Sgr.ApplySgr(params, g.pen))
    case PrivateModes(modes, _) => KeepsScreen(modes) ==> OnlyModes(g, h)
    case Region(_, _) => Unparks(g.(scrollTop := h.scrollTop, scrollBottom := h.scrollBottom), h, 0, 0)
    case Save => h == g.(savedRow := g.row, savedCol := g.col)
    case Restore => h == g.(row := h.row, col := h.col, pendingWrap := h.pendingWrap, lastPrint := None)
    case Keypad(on) => h == g.(modes := g.modes.(appKeypad := on))
    case Style(n) => h == g.(cursorStyle := n)
    case Link(link) => h == g.(activeLink := link)
    case ResetSoft => BeyondSoftReset(g, h)
    case SetSize(_, _) =>
      h == g.(rows := h.rows, cols := h.cols, primary := h.primary, alternate := h.alternate, row := h.row,
              col := h.col, pendingWrap := false, lastPrint := None, scrollTop := h.scrollTop,
              scrollBottom := h.scrollBottom, dirty := AllDirty)
    case KittyUp(_) => h == g.(kitty := h.kitty, passthrough := h.passthrough)
    case KittyDown(_) => h == g.(kitty := h.kitty, passthrough := h.passthrough)
    case Report(_, _) => h == g.(passthrough := h.passthrough)
    case AskMode(_, _) => h == g.(passthrough := h.passthrough)
    case Ignored => h == g
    case ResetFull => h.profile == g.profile && h.rows == g.rows && h.cols == g.cols
  }

  lemma {:induction false} ControlFrame(g: Grid, byte: u8)
    requires WF(g)
    ensures Touches(g, Step(g, Control(byte)), Control(byte))
  {
    hide Step, Newline, ScreenOk, ScreenShape;
    StepText(g, Control(byte));
    NewlineFrame(ClearPendingWrap(g), Hard);
  }

  lemma {:induction false} EraseBelowFrame(g: Grid)
    requires Shape(g)
    ensures OnlyRows(g, EraseDisplay(g, 0))
  {
    hide EraseCells, Preserve, WithActiveRow, BlankRows, ScreenShape;
    PreserveFrame(g);
    EraseFromCell(if g.row == 0 && g.col == 0 then Preserve(g) else g, 0, 0);
  }

  lemma {:induction false} EraseAboveFrame(g: Grid)
    requires Shape(g)
    ensures OnlyRows(g, EraseDisplay(g, 1))
  {
    hide EraseCells, WithActiveRow, BlankRows, ScreenShape;
    BlankRowsCell(g, 0, g.row, 0);
    var g1 := BlankRows(g, 0, g.row);
    WithActiveRowFrame(g1, EraseCells(ActiveRow(g1), 0, Min(g1.col, g1.cols - 1) + 1, PenBlank(g1)));
  }

  lemma {:induction false} EraseWholeFrame(g: Grid, mode: u16)
    requires Shape(g) && mode >= 2
    ensures var h := EraseDisplay(g, mode);
            OnlyRows(g, h.(passthrough := g.passthrough))
            && h.passthrough == g.passthrough + (if mode == 3 then [ScrollbackCleared] else [])
  {
    hide Preserve, BlankRows, ScreenShape;
    PreserveFrame(g);
    BlankRowsCell(Preserve(g), 0, g.rows, 0);
    BlankRowsCell(g.(history := Forget(g.history)), 0, g.rows, 0);
  }

  lemma {:induction false} EraseFrame(g: Grid, mode: u16)
    requires WF(g)
    ensures Touches(g, Step(g, EraseInDisplay(mode)), EraseInDisplay(mode))
  {
    hide Step, EraseDisplay, ScreenShape, ScreenOk;
    StepText(g, EraseInDisplay(mode));
    if mode == 0 {
      EraseBelowFrame(g);
    } else if mode == 1 {
      EraseAboveFrame(g);
    } else {
      EraseWholeFrame(g, mode);
    }
  }

  lemma {:induction false} LineEraseFrame(g: Grid, mode: u16)
    requires Shape(g)
    ensures var h := EraseLine(g, mode); OnlyRows(g, h) && h.history == g.history
  {
    hide EraseCells, MarkRange, ScreenShape;
  }

  lemma {:induction false} RowEditFrame(g: Grid, e: Event)
    requires WF(g) && EditsRow(e)
    ensures Touches(g, Step(g, e), e)
  {
    hide Step, EraseLine, InsertedAt, DeletedAt, ErasedAt, ScreenOk, ScreenShape;
    StepRowEdit(g, e);
    match e {
      case EraseInLine(mode) => LineEraseFrame(g, mode);
      case EraseCharacters(n) => EraseExact(g, n);
      case InsertCharacters(n) => InsertExact(g, n);
      case DeleteCharacters(n) => DeleteExact(g, n);
    }
  }

  lemma {:induction false} ScrollFrame(g: Grid, count: u16)
    requires Shape(g)
    ensures var h := ScrollUp(g, count, Hard);
            && OnlyRows(g, h) && Inactive(h) == Inactive(g)
            && h.history == g.history.(scrollback := h.history.scrollback, mutated := true)
  {
    hide ShiftUp, MarkRows, PushScrollback, ScreenShape;
  }

  lemma {:induction false} ShiftFrame(g: Grid, top: u16, bottom: u16, rows: u16)
    requires Shape(g) && top <= bottom < g.rows && rows <= bottom - top + 1
    ensures var h := ShiftActiveDown(g, top, bottom, rows);
            OnlyRows(g, h) && h.history == g.history && Inactive(h) == Inactive(g)
  {
    hide ShiftDown, ScreenShape;
  }

  lemma {:induction false} DeleteLinesFrame(g: Grid, n: u16)
    requires Shape(g)
    ensures var h := DeleteLinesAt(g, n); OnlyRows(g, h) && h.history == g.history && Inactive(h) == Inactive(g)
  {
    hide ShiftUp, ScreenShape;
  }

  lemma {:induction false} LinesFrame(g: Grid, e: Event)
    requires WF(g) && MovesRows(e)
    ensures Touches(g, Step(g, e), e)
  {
    hide Step, ScrollUp, ShiftActiveDown, DeleteLinesAt, ScreenShape, ScreenOk;
    StepLines(g, e);
    if e.ScrollUpBy? {
      ScrollFrame(g, Max(e.n, 1));
    } else if e.ScrollDown? {
      ShiftFrame(g, g.scrollTop, g.scrollBottom, Min(Max(e.n, 1), g.scrollBottom - g.scrollTop + 1));
    } else if e.ReverseLine? {
      ShiftFrame(ClearPendingWrap(g), g.scrollTop, g.scrollBottom, 1);
    } else if e.DeleteLines? {
      DeleteLinesFrame(g, e.n);
    } else if g.scrollTop <= g.row <= g.scrollBottom {
      ShiftFrame(g, g.row, g.scrollBottom, Min(Max(e.n, 1), g.scrollBottom - g.row + 1));
    }
  }

  lemma {:induction false} ModesFrame(g: Grid, modes: seq<u16>, on: bool)
    requires Shape(g) && KeepsScreen(modes)
    ensures OnlyModes(g, SetDecModes(g, modes, on))
    decreases |modes|
  {
    hide ScreenShape, MouseAfter, EncodingAfter, Announced;
    if modes != [] {
      assert !SwitchesScreen(modes[0]);
      FlagsKeepKeypad(g.modes, modes[0], on);
      ModesFrame(SetDecMode(g, modes[0], on), modes[1..], on);
    }
  }

  lemma {:induction false} FlagsKeepKeypad(m: Modes, mode: u16, on: bool)
    ensures FlagsAfter(m, mode, on).alt == m.alt && FlagsAfter(m, mode, on).appKeypad == m.appKeypad
  {
    if mode == 1 {
    } else if mode == 7 {
    } else if mode == 25 {
    } else if mode == 1004 {
    } else if mode == 2004 {
    } else if mode == 2026 {
    }
  }

  lemma {:induction false} CursorFrame(g: Grid, e: Event)
    requires WF(g) && (e.Cursor? || e.Region? || e.Save? || e.Restore?)
    ensures Touches(g, Step(g, e), e)
  {
    hide Step, ScreenOk, ScreenShape, RowAfter, ColAfter;
    StepCursor(g, e);
  }

  lemma {:induction false} ResetFrame(g: Grid, e: Event)
    requires WF(g) && EventOk(e) && (e.ResetSoft? || e.ResetFull? || e.SetSize?)
    ensures Touches(g, Step(g, e), e)
  {
    hide Step, ScreenOk, ScreenShape, ResizeScreen, BlankScreen;
    StepReset(g, e);
  }

  lemma {:induction false} FlagEventFrame(g: Grid, e: Event)
    requires Shape(g) && (e.Graphics? || e.Keypad? || e.Style? || e.Link? || e.Ignored?)
    ensures Touches(g, Step(g, e), e)
  {
    hide Sgr.ApplySgr, Shape;
  }

  lemma {:induction false} ReplyFrame(g: Grid, e: Event)
    requires Shape(g) && (e.KittyUp? || e.KittyDown? || e.Report? || e.AskMode?)
    ensures Touches(g, Step(g, e), e)
  {
    hide Step, ScreenShape;
    StepReply(g, e);
    if e.AskMode? { AskingIsHarmless(g, e.mode); }
  }

  /**
    * Every event touches only the fields named for it: no printable changes the pen, no erase or scroll moves the
    * cursor, no cursor motion changes a cell, no mode change or reply does either.
    */
  lemma {:induction false} StepTouchesOnly(g: Grid, e: Event)
    requires WF(g) && EventOk(e)
    ensures Touches(g, Step(g, e), e)
  {
    hide Step, WF, Touches;
    WFShape(g);
    if e.Print? {
      PrintFrame(g, e.ch);
    } else if e.Control? {
      ControlFrame(g, e.byte);
    } else if e.EraseInDisplay? {
      EraseFrame(g, e.mode);
    } else if EditsRow(e) {
      RowEditFrame(g, e);
    } else if MovesRows(e) {
      LinesFrame(g, e);
    } else if e.PrivateModes? {
      ModeListFrame(g, e.modes, e.on);
    } else if e.Cursor? || e.Region? || e.Save? || e.Restore? {
      CursorFrame(g, e);
    } else if e.ResetSoft? || e.ResetFull? || e.SetSize? {
      ResetFrame(g, e);
    } else if e.Graphics? || e.Keypad? || e.Style? || e.Link? || e.Ignored? {
      FlagEventFrame(g, e);
    } else {
      ReplyFrame(g, e);
    }
  }

  lemma {:induction false} PrintFrame(g: Grid, ch: char)
    requires Shape(g)
    ensures Touches(g, Step(g, Print(ch)), Print(ch))
  {
    hide Step, ScreenShape;
    PrintIsText(g, ch);
  }

  lemma {:induction false} ModeListFrame(g: Grid, modes: seq<u16>, on: bool)
    requires Shape(g)
    ensures Touches(g, Step(g, PrivateModes(modes, on)), PrivateModes(modes, on))
  {
    hide Step, SetDecModes, ScreenShape, KeepsScreen;
    StepText(g, PrivateModes(modes, on));
    if KeepsScreen(modes) { ModesFrame(g, modes, on); }
  }

  /**
    * The screen switches: 47 and 1047 only switch, end the hyperlink and damage everything; 1049 also saves and unparks
    * the cursor on the way in, and restores it and empties the keyboard stack on the way out.
    */
  lemma {:induction false} ScreenSwitchExact(g: Grid, mode: u16, on: bool)
    requires Shape(g) && SwitchesScreen(mode)
    ensures var h := Step(g, PrivateModes([mode], on));
            var switched := g.(modes := g.modes.(alt := on), activeLink := None, dirty := AllDirty);
            if mode != 1049 then h == switched
            else if on then h == switched.(savedRow := g.row, savedCol := g.col, pendingWrap := false,
                lastPrint := None,
                                           col := Min(g.col, g.cols - 1))
            else h == Step(switched, Restore).(kitty := [],
                passthrough := g.passthrough + Repeat(KittyReset, |g.kitty|))
  {
    hide Step, ScreenShape;
    OneMode(g, mode, on);
    StepCursor(g.(modes := g.modes.(alt := on), activeLink := None, dirty := AllDirty), Restore);
  }

  /** A glyph carries the hyperlink and the pen set before it was printed. */
  lemma {:induction false} LinkRides(g: Grid, link: Option<Hyperlink>, ch: char)
    requires WF(g) && !Absorbed(g, ch) && !Suppressed(g, ch) && !g.pendingWrap
    ensures var h := Step(Step(g, Link(link)), Print(ch));
            LandingCol(g) < h.cols && h.row == g.row
            && ActiveRow(h)[LandingCol(g)].link == link && ActiveRow(h)[LandingCol(g)].attrs == g.pen
  {
    hide Step, ScreenOk, ScreenShape, Absorbed, Suppressed, Extended;
    FlagEventFrame(g, Link(link));
    var g1 := Step(g, Link(link));
    assert Absorbed(g1, ch) == Absorbed(g, ch) && Suppressed(g1, ch) == Suppressed(g, ch) by {
      SameAbsorption(g, g1, ch);
    }
    PrintStays(g1, ch);
  }

  lemma {:induction false} SameAbsorption(g: Grid, g1: Grid, ch: char)
    requires Shape(g) && g1 == g.(activeLink := g1.activeLink)
    ensures Shape(g1) && Absorbed(g1, ch) == Absorbed(g, ch) && Suppressed(g1, ch) == Suppressed(g, ch)
  {
  }
}
