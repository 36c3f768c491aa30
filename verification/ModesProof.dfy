/** Input modes: the tokens that configure a replay, folded over a small settings record. */
module ModesProof {
  import opened Basics
  import opened GridModel
  import opened Invariant
  import opened Serialize
  import opened Replay

  datatype Settings = Settings(modes: Modes, mouse: MouseMode, encoding: MouseEncoding, style: u16)

  function SettingsOf(r: Grid): Settings {
    Settings(r.modes, r.mouseMode, r.mouseEncoding, r.cursorStyle)
  }

  /** Tokens that only configure: single private modes other than the screen switches, keypad, cursor style. */
  predicate IsConfig(e: Event) {
    match e
    case PrivateModes(modes, _) => |modes| == 1 && modes[0] != 47 && modes[0] != 1047 && modes[0] != 1049
    case Keypad(_) => true
    case Style(_) => true
    case _ => false
  }

  function Configure(c: Settings, e: Event): Settings
    requires IsConfig(e)
  {
    match e
    case PrivateModes(modes, on) =>
      Settings(FlagsAfter(c.modes, modes[0], on), MouseAfter(c.mouse, modes[0], on),
               EncodingAfter(c.encoding, modes[0], on), c.style)
    case Keypad(on) => c.(modes := c.modes.(appKeypad := on))
    case Style(n) => c.(style := n)
  }

  predicate AllConfig(es: seq<Event>) {
    forall i | 0 <= i < |es| :: IsConfig(es[i])
  }

  function ConfigureAll(c: Settings, es: seq<Event>): Settings
    requires AllConfig(es)
    decreases |es|
  {
    if es == [] then c else ConfigureAll(Configure(c, es[0]), es[1..])
  }

  /** A well-formed replay with the whole-screen region. */
  predicate HomeRegion(r: Grid) {
    WF(r) && r.scrollTop == 0 && r.scrollBottom == r.rows - 1
  }

  /** Everything a configuration token leaves alone. */
  ghost predicate SamePicture(r: Grid, s: Grid) {
    && s.rows == r.rows && s.cols == r.cols && s.profile == r.profile
    && s.row == r.row && s.col == r.col && s.pen == r.pen
    && (s.modes.alt == r.modes.alt) && Vis(s) == Vis(r)
  }

  lemma {:induction false} OneMode(r: Grid, mode: u16, on: bool)
    requires Shape(r)
    ensures SetDecModes(r, [mode], on) == SetDecMode(r, mode, on)
  {
    assert [mode][1..] == [];
    hide Shape, SetDecMode;
  }

  lemma {:induction false} StepConfig(r: Grid, e: Event)
    requires HomeRegion(r) && IsConfig(e)
    ensures EventOk(e)
    ensures var s := Step(r, e);
            HomeRegion(s) && SamePicture(r, s) && SettingsOf(s) == Configure(SettingsOf(r), e)
  {
    hide ScreenOk, ScreenShape, SetDecModes, FlagsAfter, MouseAfter, EncodingAfter, Announced;
    StepKeeps(r, e);
    if e.PrivateModes? {
      OneMode(r, e.modes[0], e.on);
      FlagsKeepAlt(r.modes, e.modes[0], e.on);
      assert e.modes == [e.modes[0]];
      assert Step(r, e) == SetDecMode(r, e.modes[0], e.on);
    }
  }

  lemma {:induction false} RunConfig(r: Grid, es: seq<Event>)
    requires HomeRegion(r) && AllConfig(es)
    ensures EventsOk(es)
    ensures var s := Run(r, es);
            HomeRegion(s) && SamePicture(r, s) && SettingsOf(s) == ConfigureAll(SettingsOf(r), es)
    decreases |es|
  {
    if es != [] {
      StepConfig(r, es[0]);
      hide Step, HomeRegion;
      RunConfig(Step(r, es[0]), es[1..]);
      assert EventsOk(es) by {
        forall i | 0 <= i < |es| ensures EventOk(es[i]) { assert i > 0 ==> es[i] == es[1..][i - 1]; }
      }
    }
  }

  lemma {:induction false} ConfigureSplit(c: Settings, a: seq<Event>, b: seq<Event>)
    requires AllConfig(a) && AllConfig(b)
    ensures AllConfig(a + b) && ConfigureAll(c, a + b) == ConfigureAll(ConfigureAll(c, a), b)
    decreases |a|
  {
    if a == [] {
      assert a + b == b;
    } else {
      assert (a + b)[1..] == a[1..] + b && (a + b)[0] == a[0];
      ConfigureSplit(Configure(c, a[0]), a[1..], b);
    }
  }

  lemma {:induction false} ConfigureOne(c: Settings, e: Event)
    requires IsConfig(e)
    ensures AllConfig([e]) && ConfigureAll(c, [e]) == Configure(c, e)
  {
    assert [e][1..] == [];
  }

  // ---- what each writer configures ----

  lemma {:induction false} ModeConfigures(c: Settings, mode: u16, on: bool)
    requires mode != 47 && mode != 1047 && mode != 1049
    ensures AllConfig(Mode(mode, on))
    ensures ConfigureAll(c, Mode(mode, on))
         == Settings(FlagsAfter(c.modes, mode, on), MouseAfter(c.mouse, mode, on), EncodingAfter(c.encoding, mode, on),
             c.style)
  {
    ConfigureOne(c, PrivateModes([mode], on));
  }

  /** Mouse writers: the numbers agree afterwards, and nothing else moved. */
  lemma {:induction false} MouseConfigures(c: Settings, mode: MouseMode, prev: MouseMode, encoding: MouseEncoding,
      prevEncoding: MouseEncoding)
    requires MouseModeNumber(c.mouse) == MouseModeNumber(prev)
    requires MouseEncodingNumber(c.encoding) == MouseEncodingNumber(prevEncoding)
    ensures var es := MouseModeTo(mode, prev) + MouseEncodingTo(encoding, prevEncoding);
            && AllConfig(es)
            && var d := ConfigureAll(c, es);
            && d.modes == c.modes && d.style == c.style
            && MouseModeNumber(d.mouse) == MouseModeNumber(mode)
            && MouseEncodingNumber(d.encoding) == MouseEncodingNumber(encoding)
  {
    var a, b := MouseModeTo(mode, prev), MouseEncodingTo(encoding, prevEncoding);
    var d1 := MouseModeConfigures(c, mode, prev);
    var d2 := MouseEncodingConfigures(d1, encoding, prevEncoding);
    hide MouseModeTo, MouseEncodingTo, ConfigureAll, AllConfig;
    ConfigureSplit(c, a, b);
  }

  lemma {:induction false} MouseModeConfigures(c: Settings, mode: MouseMode, prev: MouseMode) returns (d: Settings)
    requires MouseModeNumber(c.mouse) == MouseModeNumber(prev)
    ensures AllConfig(MouseModeTo(mode, prev)) && d == ConfigureAll(c, MouseModeTo(mode, prev))
    ensures d == c.(mouse := d.mouse) && MouseModeNumber(d.mouse) == MouseModeNumber(mode)
  {
    d := ConfigureAll(c, []);
    var m, p := MouseModeNumber(mode), MouseModeNumber(prev);
    if m != p {
      if m == 0 { ModeConfigures(c, p, false); } else { ModeConfigures(c, m, true); }
      d := ConfigureAll(c, MouseModeTo(mode, prev));
    }
  }

  lemma {:induction false} MouseEncodingConfigures(c: Settings, encoding: MouseEncoding,
      prev: MouseEncoding) returns (d: Settings)
    requires MouseEncodingNumber(c.encoding) == MouseEncodingNumber(prev)
    ensures AllConfig(MouseEncodingTo(encoding, prev)) && d == ConfigureAll(c, MouseEncodingTo(encoding, prev))
    ensures d == c.(encoding := d.encoding) && MouseEncodingNumber(d.encoding) == MouseEncodingNumber(encoding)
  {
    d := ConfigureAll(c, []);
    var m, p := MouseEncodingNumber(encoding), MouseEncodingNumber(prev);
    if m != p {
      if m == 0 { ModeConfigures(c, p, false); } else { ModeConfigures(c, m, true); }
      d := ConfigureAll(c, MouseEncodingTo(encoding, prev));
    }
  }

  /** The mode flags of the contract other than the screen switch. */
  function KeysOf(m: Modes, from: Modes): Modes {
    m.(noAutowrap := from.noAutowrap, appKeypad := from.appKeypad, appCursor := from.appCursor,
       bracketedPaste := from.bracketedPaste)
  }

  lemma {:induction false} KeypadConfigures(c: Settings, on: bool, prev: bool)
    requires c.modes.appKeypad == prev
    ensures AllConfig([Keypad(on)]) && ConfigureAll(c, [Keypad(on)]) == c.(modes := c.modes.(appKeypad := on))
    ensures AllConfig(KeypadTo(on, prev))
        && ConfigureAll(c, KeypadTo(on, prev)) == c.(modes := c.modes.(appKeypad := on))
  {
    ConfigureOne(c, Keypad(on));
  }

  lemma {:induction false} AutowrapConfigures(c: Settings, on: bool, prev: bool)
    ensures AllConfig(Mode(7, on)) && ConfigureAll(c, Mode(7, on)) == c.(modes := c.modes.(noAutowrap := !on))
    ensures AllConfig(FlagTo(7, on, prev))
    ensures !c.modes.noAutowrap == prev
        ==> ConfigureAll(c, FlagTo(7, on, prev)) == c.(modes := c.modes.(noAutowrap := !on))
  {
    ModeConfigures(c, 7, on);
  }

  lemma {:induction false} CursorKeysConfigure(c: Settings, on: bool, prev: bool)
    ensures AllConfig(Mode(1, on)) && ConfigureAll(c, Mode(1, on)) == c.(modes := c.modes.(appCursor := on))
    ensures AllConfig(FlagTo(1, on, prev))
    ensures c.modes.appCursor == prev ==> ConfigureAll(c, FlagTo(1, on, prev)) == c.(modes := c.modes.(appCursor := on))
  {
    ModeConfigures(c, 1, on);
  }

  lemma {:induction false} PasteConfigures(c: Settings, on: bool, prev: bool)
    ensures AllConfig(Mode(2004, on)) && ConfigureAll(c, Mode(2004, on)) == c.(modes := c.modes.(bracketedPaste := on))
    ensures AllConfig(FlagTo(2004, on, prev))
    ensures c.modes.bracketedPaste == prev
        ==> ConfigureAll(c, FlagTo(2004, on, prev)) == c.(modes := c.modes.(bracketedPaste := on))
  {
    ModeConfigures(c, 2004, on);
  }

  lemma {:induction false} VisibilityConfigures(c: Settings, on: bool, prev: bool)
    ensures AllConfig(Mode(25, on)) && ConfigureAll(c, Mode(25, on)) == c.(modes := c.modes.(hideCursor := !on))
    ensures AllConfig(FlagTo(25, on, prev))
    ensures !c.modes.hideCursor == prev
        ==> ConfigureAll(c, FlagTo(25, on, prev)) == c.(modes := c.modes.(hideCursor := !on))
  {
    ModeConfigures(c, 25, on);
  }

  lemma {:induction false} PadFormatted(c: Settings, wrap: bool, pad: bool)
    ensures AllConfig(Mode(7, wrap) + [Keypad(pad)])
    ensures ConfigureAll(c, Mode(7, wrap) + [Keypad(pad)])
        == c.(modes := c.modes.(noAutowrap := !wrap, appKeypad := pad))
  {
    var d := c.(modes := c.modes.(noAutowrap := !wrap));
    AutowrapConfigures(c, wrap, true);
    KeypadConfigures(d, pad, d.modes.appKeypad);
    hide Mode, ConfigureAll, AllConfig, EventsOk, FlagTo, KeypadTo;
    ConfigureSplit(c, Mode(7, wrap), [Keypad(pad)]);
  }

  lemma {:induction false} PasteFormatted(c: Settings, keys: bool, paste: bool)
    ensures AllConfig(Mode(1, keys) + Mode(2004, paste))
    ensures ConfigureAll(c, Mode(1, keys) + Mode(2004, paste))
        == c.(modes := c.modes.(appCursor := keys, bracketedPaste := paste))
  {
    var d := c.(modes := c.modes.(appCursor := keys));
    CursorKeysConfigure(c, keys, true);
    PasteConfigures(d, paste, true);
    hide Mode, ConfigureAll, AllConfig, EventsOk, FlagTo, KeypadTo;
    ConfigureSplit(c, Mode(1, keys), Mode(2004, paste));
  }

  lemma {:induction false} KeysFormattedConfigures(c: Settings, g: Grid)
    ensures AllConfig(KeysFormatted(g))
    ensures ConfigureAll(c, KeysFormatted(g)) == c.(modes := KeysOf(c.modes, g.modes))
  {
    hide Mode, ConfigureAll, AllConfig, EventsOk;
    var m := g.modes;
    var d := c.(modes := c.modes.(noAutowrap := m.noAutowrap, appKeypad := m.appKeypad));
    PadFormatted(c, !m.noAutowrap, m.appKeypad);
    PasteFormatted(d, m.appCursor, m.bracketedPaste);
    ConfigureSplit(c, Mode(7, !m.noAutowrap) + [Keypad(m.appKeypad)],
        Mode(1, m.appCursor) + Mode(2004, m.bracketedPaste));
  }

  predicate SameKeys(m: Modes, q: Modes) {
    m.noAutowrap == q.noAutowrap && m.appKeypad == q.appKeypad && m.appCursor == q.appCursor
    && m.bracketedPaste == q.bracketedPaste
  }

  lemma {:induction false} PadDiff(c: Settings, m: Modes, q: Modes)
    requires SameKeys(c.modes, q)
    ensures var es := FlagTo(7, !m.noAutowrap, !q.noAutowrap) + KeypadTo(m.appKeypad, q.appKeypad);
            && AllConfig(es)
            && ConfigureAll(c, es) == c.(modes := c.modes.(noAutowrap := m.noAutowrap, appKeypad := m.appKeypad))
  {
    var d := c.(modes := c.modes.(noAutowrap := m.noAutowrap));
    AutowrapConfigures(c, !m.noAutowrap, !q.noAutowrap);
    KeypadConfigures(d, m.appKeypad, q.appKeypad);
    hide Mode, ConfigureAll, AllConfig, EventsOk, FlagTo, KeypadTo, SameKeys;
    ConfigureSplit(c, FlagTo(7, !m.noAutowrap, !q.noAutowrap), KeypadTo(m.appKeypad, q.appKeypad));
  }

  lemma {:induction false} PasteDiff(c: Settings, m: Modes, q: Modes)
    requires c.modes.appCursor == q.appCursor && c.modes.bracketedPaste == q.bracketedPaste
    ensures var es := FlagTo(1, m.appCursor, q.appCursor) + FlagTo(2004, m.bracketedPaste, q.bracketedPaste);
            && AllConfig(es)
            && ConfigureAll(c, es) == c.(modes := c.modes.(appCursor := m.appCursor,
               bracketedPaste := m.bracketedPaste))
  {
    var d := c.(modes := c.modes.(appCursor := m.appCursor));
    CursorKeysConfigure(c, m.appCursor, q.appCursor);
    PasteConfigures(d, m.bracketedPaste, q.bracketedPaste);
    hide Mode, ConfigureAll, AllConfig, EventsOk, FlagTo;
    ConfigureSplit(c, FlagTo(1, m.appCursor, q.appCursor), FlagTo(2004, m.bracketedPaste, q.bracketedPaste));
  }

  lemma {:induction false} KeysDiffConfigures(c: Settings, g: Grid, prev: Grid)
    requires SameKeys(c.modes, prev.modes)
    ensures AllConfig(KeysDiff(g, prev))
    ensures ConfigureAll(c, KeysDiff(g, prev)) == c.(modes := KeysOf(c.modes, g.modes))
  {
    hide FlagTo, ConfigureAll, AllConfig, EventsOk, KeypadTo;
    var m, q := g.modes, prev.modes;
    var d := c.(modes := c.modes.(noAutowrap := m.noAutowrap, appKeypad := m.appKeypad));
    PasteDiff(d, m, q);
    hide SameKeys;
    PadDiff(c, m, q);
    ConfigureSplit(c, FlagTo(7, !m.noAutowrap, !q.noAutowrap) + KeypadTo(m.appKeypad, q.appKeypad),
      FlagTo(1, m.appCursor, q.appCursor) + FlagTo(2004, m.bracketedPaste, q.bracketedPaste));
  }

  // ---- the screen switch ----

  lemma {:induction false} BracketFrame(r: Grid, on: bool)
    requires Shape(r)
    ensures var s := SetAltBracket(r, on);
            && s.rows == r.rows && s.cols == r.cols && s.profile == r.profile
            && s.scrollTop == r.scrollTop && s.scrollBottom == r.scrollBottom
            && SettingsOf(s) == SettingsOf(r).(modes := r.modes.(alt := on))
  {
    hide Shape;
  }

  /** `?1049` changes the screen and the cursor, and no other setting. */
  lemma {:induction false} RunSwitch(r: Grid, on: bool)
    requires HomeRegion(r)
    ensures var s := Run(r, Mode(1049, on));
            && HomeRegion(s) && s.rows == r.rows && s.cols == r.cols && s.profile == r.profile
            && SettingsOf(s) == SettingsOf(r).(modes := r.modes.(alt := on))
  {
    hide SetAltBracket, Run, ScreenOk, ScreenShape, SetDecModes;
    var e := PrivateModes([1049], on);
    RunOne(r, e);
    OneMode(r, 1049, on);
    assert Step(r, e) == SetAltBracket(r, on);
    hide Step;
    StepKeeps(r, e);
    BracketFrame(r, on);
  }

  // ---- the whole input-mode prefix ----

  /** Every input mode of the contract agrees. */
  predicate Configured(c: Settings, g: Grid) {
    && SameKeys(c.modes, g.modes) && c.modes.alt == g.modes.alt && c.modes.hideCursor == g.modes.hideCursor
    && MouseModeNumber(c.mouse) == MouseModeNumber(g.mouseMode)
    && MouseEncodingNumber(c.encoding) == MouseEncodingNumber(g.mouseEncoding)
    && c.style == g.cursorStyle
  }

  ghost predicate SameSize(r: Grid, s: Grid) {
    s.rows == r.rows && s.cols == r.cols && s.profile == r.profile
  }

  /** Keys and mouse agree; screen, visibility and style are still those of `c`. */
  predicate HalfConfigured(c: Settings, d: Settings, g: Grid) {
    && d.modes == KeysOf(c.modes, g.modes) && d.style == c.style
    && MouseModeNumber(d.mouse) == MouseModeNumber(g.mouseMode)
    && MouseEncodingNumber(d.encoding) == MouseEncodingNumber(g.mouseEncoding)
  }

  lemma {:induction false} RunFirstHalf(r: Grid, g: Grid, keys: seq<Event>, mode: MouseMode, encoding: MouseEncoding)
    requires HomeRegion(r) && AllConfig(keys)
    requires ConfigureAll(SettingsOf(r), keys) == SettingsOf(r).(modes := KeysOf(r.modes, g.modes))
    requires MouseModeNumber(r.mouseMode) == MouseModeNumber(mode)
    requires MouseEncodingNumber(r.mouseEncoding) == MouseEncodingNumber(encoding)
    ensures var es := keys + (MouseModeTo(g.mouseMode, mode) + MouseEncodingTo(g.mouseEncoding, encoding));
            && EventsOk(es)
            && var s := Run(r, es);
            HomeRegion(s) && SamePicture(r, s) && HalfConfigured(SettingsOf(r), SettingsOf(s), g)
  {
    var mouse := MouseModeTo(g.mouseMode, mode) + MouseEncodingTo(g.mouseEncoding, encoding);
    var c := SettingsOf(r).(modes := KeysOf(r.modes, g.modes));
    hide ConfigureAll, AllConfig, EventsOk, MouseModeTo, MouseEncodingTo, Run, HomeRegion, MouseModeNumber,
      MouseEncodingNumber;
    MouseConfigures(c, g.mouseMode, mode, g.mouseEncoding, encoding);
    ConfigureSplit(SettingsOf(r), keys, mouse);
    RunConfig(r, keys + mouse);
  }

  lemma {:induction false} StyleConfigures(c: Settings, style: u16, prev: u16)
    ensures AllConfig([Style(style)]) && ConfigureAll(c, [Style(style)]) == c.(style := style)
    ensures AllConfig(StyleTo(style, prev))
    ensures c.style == prev ==> ConfigureAll(c, StyleTo(style, prev)) == c.(style := style)
  {
    ConfigureOne(c, Style(style));
  }

  /** Visibility and style, given writers `a` and `b` for them. */
  lemma {:induction false} RunSecondHalf(r: Grid, g: Grid, a: seq<Event>, b: seq<Event>)
    requires HomeRegion(r) && AllConfig(a) && AllConfig(b)
    requires var d := SettingsOf(r).(modes := r.modes.(hideCursor := g.modes.hideCursor));
             ConfigureAll(SettingsOf(r), a) == d && ConfigureAll(d, b) == d.(style := g.cursorStyle)
    ensures EventsOk(a + b)
    ensures var s := Run(r, a + b);
            && HomeRegion(s) && SamePicture(r, s)
            && SettingsOf(s) == SettingsOf(r).(modes := r.modes.(hideCursor := g.modes.hideCursor),
               style := g.cursorStyle)
  {
    hide ConfigureAll, AllConfig, EventsOk, Run, HomeRegion;
    ConfigureSplit(SettingsOf(r), a, b);
    RunConfig(r, a + b);
  }

  /** The optional screen switch. */
  lemma {:induction false} RunMaybeSwitch(r: Grid, es: seq<Event>, on: bool)
    requires HomeRegion(r)
    requires es == Mode(1049, on) || (es == [] && r.modes.alt == on)
    ensures EventsOk(es)
    ensures var s := Run(r, es);
            && HomeRegion(s) && SameSize(r, s) && SettingsOf(s) == SettingsOf(r).(modes := r.modes.(alt := on))
            && (es == [] ==> s == r)
  {
    if es == [] {
      assert Run(r, es) == r;
    } else {
      RunSwitch(r, on);
    }
    hide HomeRegion, Run;
  }

  /** Keys and mouse, the screen switch, then visibility and style: together they configure everything. */
  lemma {:induction false} HalvesConfigure(r: Grid, g: Grid, es1: seq<Event>, es2: seq<Event>, a: seq<Event>,
      b: seq<Event>, prevHide: bool, prevStyle: u16)
    requires HomeRegion(r) && EventsOk(es1)
    requires var m := Run(r, es1);
             HomeRegion(m) && SamePicture(r, m) && HalfConfigured(SettingsOf(r), SettingsOf(m), g)
    requires es2 == Mode(1049, g.modes.alt) || (es2 == [] && r.modes.alt == g.modes.alt)
    requires a == Mode(25, !g.modes.hideCursor)
      || (a == FlagTo(25, !g.modes.hideCursor, prevHide) && !r.modes.hideCursor == prevHide)
    requires b == [Style(g.cursorStyle)] || (b == StyleTo(g.cursorStyle, prevStyle) && r.cursorStyle == prevStyle)
    ensures EventsOk(es2 + a + b) && EventsOk(es1 + (es2 + a + b))
    ensures var s := Run(r, es1 + (es2 + a + b));
            && HomeRegion(s) && SameSize(r, s) && Configured(SettingsOf(s), g)
            && (es2 == [] ==> SamePicture(r, s))
  {
    hide EventsOk, Run, HomeRegion, MouseModeNumber, MouseEncodingNumber, AllConfig, ConfigureAll, FlagTo, StyleTo,
      Shape;
    HomeShape(r);
    var m := Run(r, es1);
    RunMaybeSwitch(m, es2, g.modes.alt);
    var n := Run(m, es2);
    VisibilityConfigures(SettingsOf(n), !g.modes.hideCursor, prevHide);
    StyleConfigures(SettingsOf(n).(modes := n.modes.(hideCursor := g.modes.hideCursor)), g.cursorStyle, prevStyle);
    RunSecondHalf(n, g, a, b);
    ThreeRuns(r, es1, es2, a, b);
  }

  lemma {:induction false} HomeShape(r: Grid)
    requires HomeRegion(r)
    ensures Shape(r)
  {
  }

  lemma {:induction false} ThreeRuns(r: Grid, es1: seq<Event>, es2: seq<Event>, a: seq<Event>, b: seq<Event>)
    requires Shape(r) && EventsOk(es1) && EventsOk(es2) && EventsOk(a + b)
    ensures EventsOk(es2 + a + b) && EventsOk(es1 + (es2 + a + b))
    ensures Run(r, es1 + (es2 + a + b)) == Run(Run(Run(r, es1), es2), a + b)
  {
    hide Run, EventsOk;
    assert es2 + a + b == es2 + (a + b);
    RunSplit(Run(r, es1), es2, a + b);
    RunSplit(r, es1, es2 + a + b);
  }

  /**
    * `input_mode_formatted` configures a replay whose mouse reporting is still off and which shows the primary screen.
    */
  lemma {:induction false} RunInputFormatted(r: Grid, g: Grid)
    requires HomeRegion(r) && r.mouseMode == MouseNone && r.mouseEncoding == MouseDefault && !r.modes.alt
    ensures var s := Run(r, InputModeFormatted(g));
            HomeRegion(s) && SameSize(r, s) && Configured(SettingsOf(s), g)
  {
    var es1 := KeysFormatted(g) + (MouseModeTo(g.mouseMode, MouseNone) + MouseEncodingTo(g.mouseEncoding,
        MouseDefault));
    var es2: seq<Event> := if g.modes.alt then Mode(1049, true) else [];
    KeysFormattedConfigures(SettingsOf(r), g);
    hide EventsOk, Run, HomeRegion, KeysFormatted, MouseModeTo, MouseEncodingTo, Mode, AllConfig, ConfigureAll;
    RunFirstHalf(r, g, KeysFormatted(g), MouseNone, MouseDefault);
    HalvesConfigure(r, g, es1, es2, Mode(25, !g.modes.hideCursor), [Style(g.cursorStyle)], true, 0);
  }

  /** `input_mode_diff` configures a replay that agrees with `prev`; without a switch the picture is untouched. */
  lemma {:induction false} RunInputDiff(r: Grid, g: Grid, prev: Grid)
    requires HomeRegion(r) && Configured(SettingsOf(r), prev)
    ensures var s := Run(r, InputModeDiff(g, prev));
            && HomeRegion(s) && SameSize(r, s) && Configured(SettingsOf(s), g)
            && (g.modes.alt == prev.modes.alt ==> SamePicture(r, s))
  {
    var es1 := KeysDiff(g, prev) + (MouseModeTo(g.mouseMode, prev.mouseMode) + MouseEncodingTo(g.mouseEncoding,
        prev.mouseEncoding));
    var es2 := FlagTo(1049, g.modes.alt, prev.modes.alt);
    KeysDiffConfigures(SettingsOf(r), g, prev);
    assert es2 == Mode(1049, g.modes.alt) || (es2 == [] && r.modes.alt == g.modes.alt);
    assert g.modes.alt == prev.modes.alt ==> es2 == [];
    hide EventsOk, Run, HomeRegion, KeysDiff, MouseModeTo, MouseEncodingTo, FlagTo, Mode, StyleTo, AllConfig,
      ConfigureAll, MouseModeNumber, MouseEncodingNumber;
    RunFirstHalf(r, g, KeysDiff(g, prev), prev.mouseMode, prev.mouseEncoding);
    HalvesConfigure(r, g, es1, es2, FlagTo(25, !g.modes.hideCursor, !prev.modes.hideCursor),
      StyleTo(g.cursorStyle, prev.cursorStyle), !prev.modes.hideCursor, prev.cursorStyle);
  }
}
