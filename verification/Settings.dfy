/** Resets, margins, modes and replies (src/grid/perform.rs), by what later events see of them. */
module Settings {
  import opened Basics
  import opened Cells
  import opened Damage
  import opened GridModel
  import opened Invariant
  import opened CursorMoves

  // ---- resets ----

  /**
    * RIS leaves a fresh grid of the same size and configuration, but for what it does not reach: scrollback and the
    * preserve bookkeeping (the view is rewound), the saved cursor, the cursor style, the keyboard stack and the records
    * not yet drained; everything is damaged.
    */
  lemma {:induction false} FullResetIsFresh(g: Grid)
    requires Shape(g)
    ensures Step(g, ResetFull)
         == Fresh(g.profile, g.rows, g.cols, g.history.limit)
            .(history := g.history.(offset := 0), savedRow := g.savedRow, savedCol := g.savedCol,
              cursorStyle := g.cursorStyle, kitty := g.kitty, scrollOps := g.scrollOps, passthrough := g.passthrough,
              dirty := AllDirty)
  {
    hide Step, ScreenShape, BlankScreen;
    StepReset(g, ResetFull);
  }

  /** What DECSTR does not reach. */
  ghost predicate BeyondSoftReset(g: Grid, h: Grid) {
    h == g.(pen := h.pen, scrollTop := h.scrollTop, scrollBottom := h.scrollBottom, col := h.col,
            pendingWrap := h.pendingWrap, lastPrint := h.lastPrint, modes := h.modes, savedRow := h.savedRow,
            savedCol := h.savedCol)
  }

  /**
    * DECSTR: default pen, whole-screen margins, autowrap, visible cursor, normal keys and keypad, and a saved cursor at
    * home, so that DECRC goes there. A cursor parked while autowrap was off is unparked, otherwise it stays.
    */
  lemma {:induction false} SoftResetRestoresDefaults(g: Grid)
    requires WF(g)
    ensures var h := Step(g, ResetSoft);
            && BeyondSoftReset(g, h)
            && h.pen == DEFAULT_ATTRS && h.scrollTop == 0 && h.scrollBottom == g.rows - 1 && h.lastPrint.None?
            && h.modes == Modes(g.modes.alt, false, g.modes.bracketedPaste, false, g.modes.focusEvents, false, false,
                                g.modes.syncUpdate)
            && h.col == (if g.modes.noAutowrap then Min(g.col, g.cols - 1) else g.col)
            && h.pendingWrap == (h.col == g.cols)
            && Step(h, Restore) == h.(row := 0, col := 0, pendingWrap := false)
  {
    hide Step, ScreenShape, ScreenOk;
    StepReset(g, ResetSoft);
    StepCursor(Step(g, ResetSoft), Restore);
  }

  // ---- margins ----

  /**
    * DECSTBM in one-based rows, for any parameters: an absent or zero top is row 1, an absent or zero bottom is the
    * last row, as is one beyond it; a region of fewer than two rows means the whole screen. The cursor goes home,
    * unparked.
    */
  lemma {:induction false} MarginsAreSet(g: Grid, top: u16, bottom: u16)
    requires Shape(g)
    ensures var first, last := if top == 0 then 1 else top, if bottom == 0 || bottom > g.rows then g.rows else bottom;
            var whole := first >= last;
            Step(g, Region(top, bottom))
              == g.(scrollTop := if whole then 0 else first - 1, scrollBottom := if whole then g.rows - 1 else last - 1,
                    row := 0, col := 0, pendingWrap := false, lastPrint := None)
  {
    hide Step, ScreenShape;
    StepCursor(g, Region(top, bottom));
  }

  // ---- modes ----

  predicate ScreenModes(mode: u16) {
    mode == 47 || mode == 1047 || mode == 1049
  }

  predicate MouseModes(mode: u16) {
    mode == 1000 || mode == 1002 || mode == 1003
  }

  predicate EncodingModes(mode: u16) {
    mode == 1005 || mode == 1006 || mode == 1015
  }

  predicate FlagModes(mode: u16) {
    mode in {1, 7, 12, 25, 1004, 2004, 2026}
  }

  /** What DECRQM for a private mode answers. */
  function Answer(g: Grid, mode: u16): (status: u16)
    requires Shape(g)
  {
    var h := Step(g, AskMode(mode, true));
    if h.passthrough != [] && h.passthrough[|h.passthrough| - 1].ModeReply?
    then h.passthrough[|h.passthrough| - 1].status else U16_MAX
  }

  /** Asking changes nothing but the replies; outside the private modes every mode is unknown. */
  lemma {:induction false} AskingIsHarmless(g: Grid, mode: u16)
    requires Shape(g)
    ensures Step(g, AskMode(mode, true)) == g.(passthrough := g.passthrough + [ModeReply(mode, Answer(g, mode), true)])
    ensures Step(g, AskMode(mode, false)) == g.(passthrough := g.passthrough + [ModeReply(mode, 0, false)])
  {
    hide ModeStatus, Shape;
  }

  lemma {:induction false} AnswerIsStatus(g: Grid, mode: u16)
    requires Shape(g)
    ensures Answer(g, mode) == StatusOf(g, mode)
  {
    hide ModeStatus, Shape;
  }

  lemma {:induction false} FlagStatus(g: Grid, mode: u16, on: bool, asked: u16)
    requires FlagModes(mode) && mode != 12
    ensures ModeStatus(FlagsAfter(g.modes, mode, on), g.textCursor, g.mouseMode, g.mouseEncoding, g.profile, asked)
         == if asked == mode then SetOrReset(on) else StatusOf(g, asked)
  {
  }

  lemma {:induction false} OnlyFlags(g: Grid, mode: u16, on: bool)
    requires Shape(g) && FlagModes(mode) && mode != 12
    ensures var h := SetDecMode(g, mode, on);
            && h.modes == FlagsAfter(g.modes, mode, on) && h.textCursor == g.textCursor
            && h.mouseMode == g.mouseMode && h.mouseEncoding == g.mouseEncoding && h.profile == g.profile
  {
    hide ScreenShape, FlagsAfter, Announced;
  }

  lemma {:induction false} BlinkStatus(g: Grid, on: bool, asked: u16)
    requires Shape(g)
    ensures StatusOf(SetDecMode(g, 12, on), asked) == if asked == 12 then SetOrReset(on) else StatusOf(g, asked)
  {
    hide ScreenShape, Announced;
  }

  lemma {:induction false} StatusAfterFlag(g: Grid, mode: u16, on: bool, asked: u16)
    requires Shape(g) && FlagModes(mode)
    ensures StatusOf(SetDecMode(g, mode, on), asked) == if asked == mode then SetOrReset(on) else StatusOf(g, asked)
  {
    hide Shape, SetDecMode, ModeStatus, FlagsAfter;
    if mode == 12 {
      BlinkStatus(g, on, asked);
    } else {
      OnlyFlags(g, mode, on);
      FlagStatus(g, mode, on, asked);
    }
  }

  lemma {:induction false} StatusAfterMouse(g: Grid, mode: u16, on: bool, asked: u16)
    requires Shape(g) && (MouseModes(mode) || EncodingModes(mode))
    ensures StatusOf(SetDecMode(g, mode, on), asked)
         == if asked == mode then SetOrReset(on)
            else if (MouseModes(asked) && MouseModes(mode)) || (EncodingModes(asked) && EncodingModes(mode)) then 2
            else StatusOf(g, asked)
  {
    hide ScreenShape, Announced;
  }

  lemma {:induction false} StatusAfterScreen(g: Grid, mode: u16, on: bool, asked: u16)
    requires Shape(g) && ScreenModes(mode)
    ensures StatusOf(SetDecMode(g, mode, on), asked)
         == if ScreenModes(asked) then SetOrReset(on) else StatusOf(g, asked)
  {
    hide ScreenShape;
  }

  lemma {:induction false} UnknownMode(g: Grid, mode: u16, on: bool)
    requires Shape(g)
    requires !FlagModes(mode) && !MouseModes(mode) && !EncodingModes(mode) && !ScreenModes(mode)
    ensures SetDecMode(g, mode, on) == g
    ensures StatusOf(g, mode) == if mode == 2027 then g.profile.clusterModeStatus else 0
  {
    hide ScreenShape;
    assert g.passthrough + [] == g.passthrough;
  }

  lemma {:induction false} OneMode(g: Grid, mode: u16, on: bool)
    requires Shape(g)
    ensures Step(g, PrivateModes([mode], on)) == SetDecMode(g, mode, on)
  {
    hide Step, SetDecMode, Shape;
    StepText(g, PrivateModes([mode], on));
    assert [mode][1..] == [];
    assert SetDecModes(SetDecMode(g, mode, on), [], on) == SetDecMode(g, mode, on);
  }

  /**
    * DECRQM reads what DECSET and DECRST wrote: a known mode answers set or reset as it was last written, the three
    * screen modes answer alike, writing a mouse protocol or encoding resets the others of its group, every other mode
    * answers as before, and an unknown mode, which answers 0 (mode 2027: the profile's constant), changes nothing.
    */
  lemma {:induction false} QueryReadsBack(g: Grid, mode: u16, on: bool, asked: u16)
    requires Shape(g)
    ensures var h := Step(g, PrivateModes([mode], on));
            var known := FlagModes(mode) || MouseModes(mode) || EncodingModes(mode) || ScreenModes(mode);
            && (!known ==> h == g && Answer(g, mode) == if mode == 2027 then g.profile.clusterModeStatus else 0)
            && (known ==>
                  Answer(h, asked) ==
                    if asked == mode || (ScreenModes(asked) && ScreenModes(mode)) then (if on then 1 else 2)
                    else if (MouseModes(asked) && MouseModes(mode)) || (EncodingModes(asked) && EncodingModes(mode))
                    then 2 else Answer(g, asked))
  {
    hide Step, Shape, StatusOf, SetDecMode, FlagModes, MouseModes, EncodingModes, ScreenModes, Answer;
    OneMode(g, mode, on);
    var h := SetDecMode(g, mode, on);
    AnswerIsStatus(g, asked);
    AnswerIsStatus(h, asked);
    AnswerIsStatus(g, mode);
    if FlagModes(mode) {
      OnlyFlagMode(mode);
      StatusAfterFlag(g, mode, on, asked);
    } else if MouseModes(mode) || EncodingModes(mode) {
      NoScreenMode(mode);
      StatusAfterMouse(g, mode, on, asked);
    } else if ScreenModes(mode) {
      StatusAfterScreen(g, mode, on, asked);
      OnlyScreenMode(mode);
    } else {
      UnknownMode(g, mode, on);
    }
  }

  lemma {:induction false} OnlyFlagMode(mode: u16)
    requires FlagModes(mode)
    ensures !ScreenModes(mode) && !MouseModes(mode) && !EncodingModes(mode)
  {
  }

  lemma {:induction false} NoScreenMode(mode: u16)
    requires MouseModes(mode) || EncodingModes(mode)
    ensures !ScreenModes(mode)
  {
  }

  lemma {:induction false} OnlyScreenMode(mode: u16)
    requires ScreenModes(mode)
    ensures !MouseModes(mode) && !EncodingModes(mode)
  {
  }

  /** A list of modes is written left to right. */
  function OneByOne(modes: seq<u16>, on: bool): (es: seq<Event>)
    ensures |es| == |modes| && EventsOk(es)
  {
    seq(|modes|, i requires 0 <= i < |modes| => PrivateModes([modes[i]], on))
  }

  lemma {:induction false} ModeListInOrder(g: Grid, modes: seq<u16>, on: bool)
    requires Shape(g)
    ensures Step(g, PrivateModes(modes, on)) == Run(g, OneByOne(modes, on))
    decreases |modes|
  {
    hide Step, SetDecMode, Shape;
    StepText(g, PrivateModes(modes, on));
    if modes != [] {
      OneMode(g, modes[0], on);
      var h := SetDecMode(g, modes[0], on);
      ModeListInOrder(h, modes[1..], on);
      StepText(h, PrivateModes(modes[1..], on));
      assert OneByOne(modes, on)[1..] == OneByOne(modes[1..], on);
    }
  }

  /**
    * The host is told of application keys, focus reporting and bracketed paste as they are written, and of one keyboard
    * reset for every level dropped when `?1049l` leaves the alternate screen; no other private mode says anything.
    */
  lemma {:induction false} WritingAnnounces(g: Grid, mode: u16, on: bool)
    requires Shape(g)
    ensures var h := Step(g, PrivateModes([mode], on));
            && (mode == 1 ==> h.passthrough == g.passthrough + [CursorKeys(on)])
            && (mode == 1004 ==> h.passthrough == g.passthrough + [FocusReporting(on)])
            && (mode == 2004 ==> h.passthrough == g.passthrough + [PasteBracketing(on)])
            && (mode == 1049 && !on ==> h.passthrough == g.passthrough + Repeat(KittyReset, |g.kitty|) && h.kitty == [])
            && (mode !in {1, 1004, 2004} && !(mode == 1049 && !on) ==>
                  h.passthrough == g.passthrough && h.kitty == g.kitty)
  {
    hide Step, ScreenShape;
    OneMode(g, mode, on);
  }

  // ---- replies ----

  /** DSR 6 names the position a CUP would return to; a parked cursor reports the last column, never one beyond it. */
  lemma {:induction false} ReportedPositionReturns(g: Grid, dec: bool)
    requires WF(g)
    ensures var h := Step(g, Report(6, dec));
            && |h.passthrough| == |g.passthrough| + 1 && h == g.(passthrough := h.passthrough)
            && h.passthrough[..|g.passthrough|] == g.passthrough
            && var reply := h.passthrough[|g.passthrough|];
               && reply.CursorReply? && reply.dec == dec && 1 <= reply.row <= g.rows && 1 <= reply.col <= g.cols
               && var back := Step(g, Cursor(To(reply.row, reply.col)));
                  back.row == g.row && back.col == (if g.pendingWrap then g.cols - 1 else g.col)
  {
    hide Step, ScreenShape, ScreenOk;
    StepReply(g, Report(6, dec));
    MoveLandsClamped(g, To(g.row + 1, Min(g.col, g.cols - 1) + 1));
  }

  /** DSR 5 answers ready; no other report is answered. */
  lemma {:induction false} OtherReports(g: Grid, n: u16, dec: bool)
    requires Shape(g) && n != 6
    ensures Step(g, Report(n, dec)) == if n == 5 then g.(passthrough := g.passthrough + [StatusReply]) else g
  {
    hide Step, ScreenShape;
    StepReply(g, Report(n, dec));
  }

  /**
    * A keyboard pop undoes a push exactly when the stack had room for it; both are forwarded either way. A pop takes as
    * many levels as it names, one for zero, and stops at the bottom.
    */
  lemma {:induction false} PopUndoesPushIff(g: Grid, flags: u16, n: u16)
    requires Shape(g) && |g.kitty| <= KITTY_STACK_CAP
    ensures var pushed := Step(g, KittyUp(flags));
            var popped := Step(pushed, KittyDown(0));
            && pushed == g.(kitty := pushed.kitty, passthrough := g.passthrough + [KittyForward(true, Max(flags, 1))])
            && |pushed.kitty| <= KITTY_STACK_CAP && g.kitty <= pushed.kitty
            && (|g.kitty| < KITTY_STACK_CAP ==> pushed.kitty == g.kitty + [Max(flags, 1)])
            && (popped.kitty == g.kitty <==> |g.kitty| < KITTY_STACK_CAP)
    ensures var h := Step(g, KittyDown(n));
            var levels := if n == 0 then 1 else n;
            && h == g.(kitty := h.kitty, passthrough := g.passthrough + [KittyForward(false, levels)])
            && h.kitty <= g.kitty && |h.kitty| == Max(|g.kitty| - levels, 0)
  {
    hide Step, ScreenShape;
    StepReply(g, KittyUp(flags));
    StepReply(g, KittyDown(n));
    StepReply(Step(g, KittyUp(flags)), KittyDown(0));
  }
}
