/**
  * The terminal grid as a state machine over parsed events (src/grid.rs, src/grid/perform.rs).
  * `Step` is total on well-shaped grids; its well-formedness obligations are the absence of u16 overflow and of
  * out-of-range indexing.
  */
module GridModel {
  import opened Basics
  import opened Cells
  import opened Rows
  import opened Damage
  import Sgr

  datatype RowWrap = Hard | Soft

  datatype ScrollOp =
    | ScrolledUp(top: u16, bottom: u16, rows: u16)
    | ScrolledDown(top: u16, bottom: u16, rows: u16)

  datatype MouseMode = MouseNone | Press | PressRelease | ButtonMotion | AnyEvent | AnyMotion

  datatype MouseEncoding = MouseDefault | Utf8Encoding | SgrEncoding | UrxvtEncoding

  datatype ErasePolicy = SaveToScrollback | Discard

  datatype Passthrough =
    | BellRang
    | CursorKeys(on: bool)
    | FocusReporting(on: bool)
    | PasteBracketing(on: bool)
    | ScrollbackCleared
    | KittyForward(push: bool, value: nat)
    | KittyReset
    | StatusReply
    | CursorReply(row: int, col: int, dec: bool)
    | ModeReply(mode: u16, status: u16, dec: bool)

  /** Rows with their wrap provenance (`RowStore`). */
  datatype Screen = Screen(cells: seq<Row>, wraps: seq<RowWrap>)

  datatype Modes = Modes(
    alt: bool,
    hideCursor: bool,
    bracketedPaste: bool,
    appCursor: bool,
    focusEvents: bool,
    noAutowrap: bool,
    appKeypad: bool,
    syncUpdate: bool)

  /** Scrollback with its limit and view offset, and the bookkeeping of the preserve-on-clear rule. */
  datatype History = History(
    scrollback: Screen,
    limit: nat,
    offset: nat,
    mutated: bool,
    lastPreserved: Option<seq<Row>>,
    policy: ErasePolicy)

  datatype Grid = Grid(
    profile: Profile,
    rows: u16,
    cols: u16,
    primary: Screen,
    alternate: Screen,
    history: History,
    row: u16,
    col: u16,
    savedRow: u16,
    savedCol: u16,
    pendingWrap: bool,
    lastPrint: Option<(u16, u16)>,
    modes: Modes,
    mouseMode: MouseMode,
    mouseEncoding: MouseEncoding,
    cursorStyle: u16,
    textCursor: Option<bool>,
    pen: Attrs,
    activeLink: Option<Hyperlink>,
    scrollTop: u16,
    scrollBottom: u16,
    scrollOps: seq<ScrollOp>,
    kitty: seq<nat>,
    dirty: Dirty,
    passthrough: seq<Passthrough>)

  /** Widest grid on which the tab arithmetic stays inside u16. */
  const MAX_COLS: u16 := 65528

  const KITTY_STACK_CAP: nat := 64

  predicate ScreenShape(s: Screen, rows: nat, cols: nat) {
    |s.cells| == rows && |s.wraps| == rows && forall r | 0 <= r < rows :: |s.cells[r]| == cols
  }

  /** What every operation needs to run without a panic. */
  predicate Shape(g: Grid) {
    && g.rows >= 1 && 1 <= g.cols <= MAX_COLS
    && ScreenShape(g.primary, g.rows, g.cols)
    && ScreenShape(g.alternate, g.rows, g.cols)
    && |g.history.scrollback.cells| == |g.history.scrollback.wraps|
    && g.row < g.rows && g.col <= g.cols
    && g.scrollTop <= g.scrollBottom < g.rows
  }

  /** Configuration no event changes: the width tables, the scrollback limit and the erase policy. */
  ghost predicate SameConfig(g: Grid, h: Grid) {
    h.profile == g.profile && h.history.limit == g.history.limit && h.history.policy == g.history.policy
  }

  function Active(g: Grid): Screen {
    if g.modes.alt then g.alternate else g.primary
  }

  function WithActive(g: Grid, s: Screen): Grid {
    if g.modes.alt then g.(alternate := s) else g.(primary := s)
  }

  function ActiveRow(g: Grid): (row: Row)
    requires Shape(g)
    ensures |row| == g.cols
  {
    Active(g).cells[g.row]
  }

  /** Replace the cells of the cursor row. */
  function WithActiveRow(g: Grid, row: Row): (h: Grid)
    requires Shape(g) && |row| == g.cols
    ensures Shape(h) && SameConfig(g, h)
  {
    WithActive(g, Active(g).(cells := Active(g).cells[g.row := row]))
  }

  function BlankScreen(rows: u16, cols: u16): (s: Screen)
    ensures ScreenShape(s, rows, cols)
  {
    Screen(Repeat(BlankRow(cols), rows), Repeat(Hard, rows))
  }

  const DEFAULT_MODES: Modes := Modes(false, false, false, false, false, false, false, false)

  /** `DamageGrid::new`. */
  function Fresh(profile: Profile, rows: u16, cols: u16, limit: nat): (g: Grid)
    requires rows >= 1 && 1 <= cols <= MAX_COLS
    ensures Shape(g)
  {
    Grid(profile, rows, cols, BlankScreen(rows, cols), BlankScreen(rows, cols),
         History(Screen([], []), limit, 0, false, None, SaveToScrollback),
         0, 0, 0, 0, false, None, DEFAULT_MODES, MouseNone, MouseDefault, 0, None,
         DEFAULT_ATTRS, None, 0, rows - 1, [], [], CLEAN, [])
  }

  // ---- cursor helpers ----

  function ClearPendingWrap(g: Grid): Grid
    requires Shape(g)
  {
    g.(pendingWrap := false, lastPrint := None, col := if g.col >= g.cols then g.cols - 1 else g.col)
  }

  function RestoreSavedCursor(g: Grid): Grid
    requires Shape(g)
  {
    var row: u16 := Min(g.savedRow, g.rows - 1);
    if g.savedCol >= g.cols
    then g.(row := row, col := g.cols, pendingWrap := true, lastPrint := None)
    else g.(row := row, col := Min(g.savedCol, g.cols - 1), pendingWrap := false, lastPrint := None)
  }

  function SaveCursor(g: Grid): Grid {
    g.(savedRow := g.row, savedCol := g.col)
  }

  // ---- scrolling ----

  /** Rows `top..=bottom` move up by `n`; blank rows enter at the bottom. */
  function ShiftUp(s: Screen, cols: u16, top: nat, bottom: nat, n: nat, wrap: RowWrap): Screen
    requires top <= bottom < |s.cells| == |s.wraps| && n <= bottom + 1 - top
  {
    Screen(s.cells[..top] + s.cells[top + n..bottom + 1] + Repeat(BlankRow(cols), n) + s.cells[bottom + 1..],
           s.wraps[..top] + s.wraps[top + n..bottom + 1] + Repeat(wrap, n) + s.wraps[bottom + 1..])
  }

  /** Rows `top..=bottom` move down by `n`; blank rows enter at the top. */
  function ShiftDown(s: Screen, cols: u16, top: nat, bottom: nat, n: nat): Screen
    requires top <= bottom < |s.cells| == |s.wraps| && n <= bottom + 1 - top
  {
    Screen(s.cells[..top] + Repeat(BlankRow(cols), n) + s.cells[top..bottom + 1 - n] + s.cells[bottom + 1..],
           s.wraps[..top] + Repeat(Hard, n) + s.wraps[top..bottom + 1 - n] + s.wraps[bottom + 1..])
  }

  /** Append rows to scrollback, evicting the oldest past the limit. */
  function PushScrollback(s: Screen, limit: nat, cells: seq<Row>, wraps: seq<RowWrap>): Screen {
    Screen(KeepLast(s.cells + cells, limit), KeepLast(s.wraps + wraps, limit))
  }

  function Remember(h: History, cells: seq<Row>, wraps: seq<RowWrap>): History {
    h.(scrollback := PushScrollback(h.scrollback, h.limit, cells, wraps))
  }

  /** ED 3: no scrollback, view at the live tail. */
  function Forget(h: History): History {
    h.(scrollback := Screen([], []), offset := 0)
  }

  /** Content changed since the last preserve. */
  function Touch(g: Grid): Grid {
    g.(history := g.history.(mutated := true))
  }

  /** Move the region up by `n` rows, handing the rows that leave the top of the primary screen to scrollback. */
  function EvictRows(g: Grid, n: u16, wrap: RowWrap): (h: Grid)
    requires Shape(g) && n <= g.scrollBottom - g.scrollTop + 1
    ensures Shape(h) && SameConfig(g, h)
  {
    var top := g.scrollTop;
    var s := Active(g);
    var shifted := ShiftUp(s, g.cols, top, g.scrollBottom, n, wrap);
    assert ScreenShape(shifted, g.rows, g.cols);
    if g.modes.alt then g.(alternate := shifted)
    else if top == 0 && g.history.limit > 0 then
      g.(primary := shifted,
         history := Remember(g.history, s.cells[top..top + n], s.wraps[top..top + n]))
    else g.(primary := shifted)
  }

  /** `scroll_up`: the count is clamped to the region; a one-row region records the shift but moves nothing. */
  function ScrollUp(g: Grid, count: u16, wrap: RowWrap): (h: Grid)
    requires Shape(g)
    ensures Shape(h) && SameConfig(g, h)
  {
    var n: u16 := Min(count, g.scrollBottom - g.scrollTop + 1);
    var moved := if g.scrollTop < g.scrollBottom then EvictRows(g, n, wrap) else g;
    var ops := if n > 0 then g.scrollOps + [ScrolledUp(g.scrollTop, g.scrollBottom, n)] else g.scrollOps;
    Touch(moved).(scrollOps := ops, dirty := MarkRows(g.dirty, g.scrollTop, g.scrollBottom))
  }

  function Newline(g: Grid, wrap: RowWrap): (h: Grid)
    requires Shape(g)
    ensures Shape(h) && SameConfig(g, h) && h.col == g.col
  {
    if g.row == g.scrollBottom then ScrollUp(g, 1, wrap)
    else
      var row: u16 := Min(SatAdd(g.row, 1), g.rows - 1);
      WithActive(g.(row := row), Active(g).(wraps := Active(g).wraps[row := wrap]))
  }

  function ShiftActiveDown(g: Grid, top: u16, bottom: u16, rows: u16): (h: Grid)
    requires Shape(g) && top <= bottom < g.rows && rows <= bottom - top + 1
    ensures Shape(h) && SameConfig(g, h)
  {
    var shifted := ShiftDown(Active(g), g.cols, top, bottom, rows);
    assert ScreenShape(shifted, g.rows, g.cols);
    WithActive(g, shifted)
      .(scrollOps := g.scrollOps + [ScrolledDown(top, bottom, rows)], dirty := AllDirty)
  }

  /** IL: a no-op outside the margins. */
  function InsertLinesAt(g: Grid, p0: u16): (h: Grid)
    requires Shape(g)
    ensures Shape(h) && SameConfig(g, h)
  {
    if g.row < g.scrollTop || g.row > g.scrollBottom then g
    else ShiftActiveDown(g, g.row, g.scrollBottom, Min(Max(p0, 1), g.scrollBottom - g.row + 1))
  }

  /** DL: a no-op outside the margins. */
  function DeleteLinesAt(g: Grid, p0: u16): (h: Grid)
    requires Shape(g)
    ensures Shape(h) && SameConfig(g, h)
  {
    if g.row < g.scrollTop || g.row > g.scrollBottom then g
    else
      var rows: u16 := Min(Max(p0, 1), g.scrollBottom - g.row + 1);
      var shifted := ShiftUp(Active(g), g.cols, g.row, g.scrollBottom, rows, Hard);
      assert ScreenShape(shifted, g.rows, g.cols);
      WithActive(g, shifted)
        .(scrollOps := g.scrollOps + [ScrolledUp(g.row, g.scrollBottom, rows)], dirty := AllDirty)
  }

  function ScrollDownBy(g: Grid, p0: u16): (h: Grid)
    requires Shape(g)
    ensures Shape(h) && SameConfig(g, h)
  {
    ShiftActiveDown(g, g.scrollTop, g.scrollBottom, Min(Max(p0, 1), g.scrollBottom - g.scrollTop + 1))
  }

  function ReverseIndex(g: Grid): (h: Grid)
    requires Shape(g)
    ensures Shape(h) && SameConfig(g, h)
  {
    var g1 := ClearPendingWrap(g);
    if g1.row == g1.scrollTop then ShiftActiveDown(g1, g1.scrollTop, g1.scrollBottom, 1)
    else g1.(row := SatSub(g1.row, 1))
  }

  // ---- printing ----

  /** The column whose cell a joining character extends, before stepping back from a continuation. */
  function JoinTarget(g: Grid): Option<u16>
    requires Shape(g)
  {
    if g.pendingWrap || g.col >= g.cols then Some(g.cols - 1)
    else if g.col > 0 then Some(g.col - 1)
    else None
  }

  /** The lead column for a target column. */
  function LeadOf(row: Row, col: nat): (lead: nat)
    requires col < |row|
    ensures lead <= col
  {
    if row[col].cont && col > 0 then col - 1 else col
  }

  /** Column and deferred wrap after the cluster at `lead` went from `oldWidth` to `newWidth` columns. */
  function CursorAfterJoin(col: u16, pending: bool, cols: u16, lead: u16, oldWidth: u16,
      newWidth: u16): (r: (u16, bool))
    requires lead < cols <= MAX_COLS && col <= cols && oldWidth <= 2 && newWidth <= 2
    ensures r.0 <= cols
  {
    var atEnd := col == lead + oldWidth;
    var col1: u16 :=
      if atEnd && col < cols then Min(lead + newWidth, cols)
      else if atEnd && newWidth < oldWidth then lead + newWidth
      else col;
    var pending1 := pending && !(atEnd && col >= cols && newWidth < oldWidth);
    if (pending1 || col1 >= cols) && lead + newWidth >= cols && newWidth > oldWidth then (cols, true)
    else (col1, pending1)
  }

  /** Write `contents` into the cluster at `lead` of the cursor row and move the cursor with its end. */
  function ExtendCluster(g: Grid, lead: u16, contents: string): (h: Grid)
    requires Shape(g) && lead < g.cols
    ensures Shape(h) && SameConfig(g, h)
  {
    var row := ActiveRow(g);
    var oldWidth := CellWidth(row[lead]);
    var newWidth: u16 := Min(g.profile.clusterWidth(contents), 2);
    var cursor := CursorAfterJoin(g.col, g.pendingWrap, g.cols, lead, oldWidth, newWidth);
    var markEnd := SatAdd(lead, Max(Max(oldWidth, newWidth), 1));
    WithActiveRow(g, JoinCluster(row, lead, contents, g.activeLink, newWidth))
      .(col := cursor.0, pendingWrap := cursor.1, lastPrint := Some((g.row, cursor.0)),
        dirty := MarkRange(g.dirty, g.row, lead, markEnd))
  }

  /** `append_to_previous_cluster`: `None` when the character starts a cell of its own. */
  function Append(g: Grid, ch: char, width: nat): (r: Option<Grid>)
    requires Shape(g)
    ensures r.Some? ==> Shape(r.value) && SameConfig(g, r.value)
    ensures width == 0 ==> r.Some?
  {
    var zero := width == 0;
    if !zero && g.lastPrint != Some((g.row, g.col)) then None
    else match JoinTarget(g)
      case None => if zero then Some(g) else None
      case Some(target) =>
        var row := ActiveRow(g);
        var lead := LeadOf(row, target);
        var contents := row[lead].contents;
        if !zero && !EndsWithZwj(contents) then None
        else if contents == "" && zero then Some(g)
        else if |contents| > MAX_CLUSTER_JOINERS then (if zero then Some(g) else None)
        else Some(ExtendCluster(g, lead, contents + [ch]))
  }

  /** First column a glyph written at `col` changes. */
  function PutStart(row: Row, col: u16): u16
    requires col < |row|
  {
    if row[col].cont then SatSub(col, 1) else col
  }

  /** End of the columns a glyph of `width` written at `col` changes. */
  function PutEnd(row: Row, col: u16, width: u16): u16
    requires col < |row|
  {
    var end := SatAdd(col, width);
    if row[col].wide && width < 2 && col + 1 < |row| then Max(end, SatAdd(col, 2))
    else if width > 1 && col + 2 < |row| && row[col + 1].wide then Max(end, SatAdd(col, 3))
    else end
  }

  /** Put a positive-width glyph at the cursor and advance, parking at the phantom column. */
  function PutChar(g: Grid, ch: char, width: nat): (h: Grid)
    requires Shape(g) && 1 <= width <= 2
    ensures Shape(h) && SameConfig(g, h)
  {
    if g.col >= g.cols then g
    else
      var row := ActiveRow(g);
      var cell := Cell([ch], width > 1, false, g.pen, g.activeLink);
      var next: u16 := Min(g.col + width, g.cols);
      WithActiveRow(g, PutGlyph(row, g.col, cell))
        .(col := next, pendingWrap := g.pendingWrap || next == g.cols, lastPrint := Some((g.row, next)),
          dirty := MarkRange(g.dirty, g.row, PutStart(row, g.col), PutEnd(row, g.col, width)))
  }

  /** `write_char_at_cursor`. */
  function WriteChar(g: Grid, ch: char): (h: Grid)
    requires Shape(g)
    ensures Shape(h) && SameConfig(g, h)
  {
    var width := g.profile.charWidth(ch);
    var g0 := Touch(g);
    match Append(g0, ch, width)
    case Some(joined) => joined
    case None =>
      if g0.modes.noAutowrap then
        var col: u16 := Min(g0.col, g0.cols - 1);
        if width > g0.cols - col then g0
        else PutChar(g0.(pendingWrap := false, col := col), ch, width)
      else if g0.pendingWrap then PutChar(Newline(g0.(pendingWrap := false, col := 0), Soft), ch, width)
      else PutChar(g0, ch, width)
  }

  // ---- erasing ----

  function PenBlank(g: Grid): Cell {
    BlankCell(g.pen.background)
  }

  function PenBlankRow(g: Grid): Row {
    Repeat(PenBlank(g), g.cols)
  }

  function EraseLine(g: Grid, mode: u16): (h: Grid)
    requires Shape(g)
    ensures Shape(h) && SameConfig(g, h)
  {
    match mode
    case 0 =>
      WithActiveRow(g, EraseCells(ActiveRow(g), g.col, g.cols, PenBlank(g)))
        .(dirty := MarkRange(g.dirty, g.row, g.col, g.cols))
    case 1 =>
      var end: u16 := Min(g.col, g.cols - 1) + 1;
      WithActiveRow(g, EraseCells(ActiveRow(g), 0, end, PenBlank(g)))
        .(dirty := MarkRange(g.dirty, g.row, 0, SatAdd(g.col, 1)))
    case 2 => WithActiveRow(g, PenBlankRow(g)).(dirty := MarkRow(g.dirty, g.row))
    case _ => g
  }

  predicate Filled(row: Row) {
    exists i | 0 <= i < |row| :: row[i].contents != ""
  }

  /** Index of the first filled row at or after `i`. */
  function FirstFilled(cells: seq<Row>, i: nat): (r: Option<nat>)
    requires i <= |cells|
    ensures r.Some? ==> i <= r.value < |cells|
    decreases |cells| - i
  {
    if i == |cells| then None else if Filled(cells[i]) then Some(i) else FirstFilled(cells, i + 1)
  }

  /** Index of the last filled row before `n`. */
  function LastFilled(cells: seq<Row>, n: nat): (r: Option<nat>)
    requires n <= |cells|
    ensures r.Some? ==> r.value < n
    decreases n
  {
    if n == 0 then None else if Filled(cells[n - 1]) then Some(n - 1) else LastFilled(cells, n - 1)
  }

  lemma {:induction false} FirstFilledIsBeforeLast(cells: seq<Row>, i: nat, n: nat)
    requires i <= n == |cells| && FirstFilled(cells, i).Some?
    ensures LastFilled(cells, n).Some? && FirstFilled(cells, i).value <= LastFilled(cells, n).value
  {
    LastFilledCatches(cells, FirstFilled(cells, i).value, n);
    FirstFilledIsFilled(cells, i);
  }

  lemma {:induction false} FirstFilledIsFilled(cells: seq<Row>, i: nat)
    requires i <= |cells| && FirstFilled(cells, i).Some?
    ensures Filled(cells[FirstFilled(cells, i).value])
    decreases |cells| - i
  {
    if !Filled(cells[i]) { FirstFilledIsFilled(cells, i + 1); }
  }

  lemma {:induction false} LastFilledCatches(cells: seq<Row>, k: nat, n: nat)
    requires k < n <= |cells|
    ensures Filled(cells[k]) ==> LastFilled(cells, n).Some? && LastFilled(cells, n).value >= k
    decreases n
  {
    if !Filled(cells[n - 1]) && k < n - 1 { LastFilledCatches(cells, k, n - 1); }
  }

  /** The span from the first to the last filled row, when there is one. */
  function FilledBlock(cells: seq<Row>): Option<seq<Row>> {
    match FirstFilled(cells, 0)
    case None => None
    case Some(first) =>
      FirstFilledIsBeforeLast(cells, 0, |cells|);
      Some(cells[first..LastFilled(cells, |cells|).value + 1])
  }

  /** `preserve_visible_rows_to_scrollback`. */
  function Preserve(g: Grid): (h: Grid)
    requires Shape(g)
    ensures Shape(h) && SameConfig(g, h)
  {
    if g.history.policy.Discard? || g.modes.alt || g.history.limit == 0 || !g.history.mutated then g
    else match FilledBlock(g.primary.cells)
      case None => g
      case Some(block) =>
        if g.history.lastPreserved == Some(block) then g.(history := g.history.(mutated := false))
        else g.(history := Remember(g.history, block, Repeat(Hard, |block|)).(lastPreserved := Some(block),
            mutated := false))
  }

  /** Blank every row from `from` up to `to` (exclusive) with the pen background. */
  function BlankRows(g: Grid, from: nat, to: nat): (h: Grid)
    requires Shape(g) && from <= to <= g.rows
    ensures Shape(h) && SameConfig(g, h)
  {
    var cells := Active(g).cells;
    WithActive(g, Active(g).(cells := cells[..from] + Repeat(PenBlankRow(g), to - from) + cells[to..]))
  }

  function EraseDisplay(g: Grid, mode: u16): (h: Grid)
    requires Shape(g)
    ensures Shape(h) && SameConfig(g, h)
  {
    match mode
    case 0 =>
      var g1 := if g.row == 0 && g.col == 0 then Preserve(g) else g;
      var g2 := WithActiveRow(g1, EraseCells(ActiveRow(g1), g1.col, g1.cols, PenBlank(g1)));
      BlankRows(g2, g2.row + 1, g2.rows).(dirty := AllDirty)
    case 1 =>
      var g1 := BlankRows(g, 0, g.row);
      WithActiveRow(g1, EraseCells(ActiveRow(g1), 0, Min(g1.col, g1.cols - 1) + 1, PenBlank(g1))).(dirty := AllDirty)
    case 2 => BlankRows(Preserve(g), 0, g.rows).(dirty := AllDirty)
    case 3 =>
      BlankRows(g.(history := Forget(g.history)), 0, g.rows)
        .(passthrough := g.passthrough + [ScrollbackCleared], dirty := AllDirty)
    case _ => g.(dirty := AllDirty)
  }

  function EraseChars(g: Grid, p0: u16): (h: Grid)
    requires Shape(g)
    ensures Shape(h) && SameConfig(g, h)
  {
    var n := Max(p0, 1);
    var end: u16 := Min(g.col + n, g.cols);
    var start: u16 := Min(g.col, end);
    WithActiveRow(g, EraseCells(ActiveRow(g), start, end, PenBlank(g)))
      .(dirty := MarkRange(g.dirty, g.row, g.col, end))
  }

  function InsertChars(g: Grid, p0: u16): (h: Grid)
    requires Shape(g)
    ensures Shape(h) && SameConfig(g, h)
  {
    var row := ActiveRow(g);
    var row' := InsertCells(row, g.col, Max(p0, 1));
    assert |row'| == |row|;
    WithActiveRow(g, row').(dirty := MarkRange(g.dirty, g.row, g.col, g.cols))
  }

  function DeleteChars(g: Grid, p0: u16): (h: Grid)
    requires Shape(g)
    ensures Shape(h) && SameConfig(g, h)
  {
    var row := ActiveRow(g);
    var row' := DeleteCells(row, g.col, Max(p0, 1));
    assert |row'| == |row|;
    WithActiveRow(g, row').(dirty := MarkRange(g.dirty, g.row, g.col, g.cols))
  }

  // ---- modes and resets ----

  function SetAltScreen(g: Grid, on: bool): Grid {
    g.(modes := g.modes.(alt := on), activeLink := None, dirty := AllDirty)
  }

  /** `?1049`: save, switch and unpark on the way in; switch and restore on the way out. */
  function SetAltBracket(g: Grid, on: bool): (h: Grid)
    requires Shape(g)
    ensures Shape(h) && SameConfig(g, h)
  {
    if on then ClearPendingWrap(SetAltScreen(SaveCursor(g), true))
    else
      var g1 := RestoreSavedCursor(SetAltScreen(g, false));
      g1.(kitty := [], passthrough := g1.passthrough + Repeat(KittyReset, |g1.kitty|))
  }

  function FlagsAfter(m: Modes, mode: u16, on: bool): Modes {
    match mode
    case 1 => m.(appCursor := on)
    case 7 => m.(noAutowrap := !on)
    case 25 => m.(hideCursor := !on)
    case 1004 => m.(focusEvents := on)
    case 2004 => m.(bracketedPaste := on)
    case 2026 => m.(syncUpdate := on)
    case _ => m
  }

  /** Setting selects the mode; resetting any of the three turns reporting off. */
  function MouseAfter(m: MouseMode, mode: u16, on: bool): MouseMode {
    match mode
    case 1000 => if on then Press else MouseNone
    case 1002 => if on then ButtonMotion else MouseNone
    case 1003 => if on then AnyMotion else MouseNone
    case _ => m
  }

  function EncodingAfter(e: MouseEncoding, mode: u16, on: bool): MouseEncoding {
    match mode
    case 1005 => if on then Utf8Encoding else MouseDefault
    case 1006 => if on then SgrEncoding else MouseDefault
    case 1015 => if on then UrxvtEncoding else MouseDefault
    case _ => e
  }

  /** The three modes that are announced to the host as they change. */
  function Announced(mode: u16, on: bool): seq<Passthrough> {
    match mode
    case 1 => [CursorKeys(on)]
    case 1004 => [FocusReporting(on)]
    case 2004 => [PasteBracketing(on)]
    case _ => []
  }

  function SetDecMode(g: Grid, mode: u16, on: bool): (h: Grid)
    requires Shape(g)
    ensures Shape(h) && SameConfig(g, h)
  {
    if mode == 47 || mode == 1047 then SetAltScreen(g, on)
    else if mode == 1049 then SetAltBracket(g, on)
    else
      g.(modes := FlagsAfter(g.modes, mode, on),
         mouseMode := MouseAfter(g.mouseMode, mode, on),
         mouseEncoding := EncodingAfter(g.mouseEncoding, mode, on),
         textCursor := if mode == 12 then Some(on) else g.textCursor,
         passthrough := g.passthrough + Announced(mode, on))
  }

  function SetDecModes(g: Grid, modes: seq<u16>, on: bool): (h: Grid)
    requires Shape(g)
    ensures Shape(h) && SameConfig(g, h)
    decreases |modes|
  {
    if modes == [] then g else SetDecModes(SetDecMode(g, modes[0], on), modes[1..], on)
  }

  function SetRegion(g: Grid, p0: u16, p1: u16): (h: Grid)
    requires Shape(g)
    ensures Shape(h) && SameConfig(g, h)
  {
    var top := SatSub(p0, 1);
    var bottom: u16 := if p1 == 0 then g.rows - 1 else Min(SatSub(p1, 1), g.rows - 1);
    var g1 := ClearPendingWrap(g).(row := 0, col := 0);
    if top < bottom then g1.(scrollTop := top, scrollBottom := bottom)
    else g1.(scrollTop := 0, scrollBottom := g.rows - 1)
  }

  /** DECSTR. */
  function SoftReset(g: Grid): (h: Grid)
    requires Shape(g)
    ensures Shape(h) && SameConfig(g, h)
  {
    var g1 := g.(pen := DEFAULT_ATTRS, scrollTop := 0, scrollBottom := g.rows - 1);
    var g2 := if g.modes.noAutowrap then ClearPendingWrap(g1) else g1;
    g2.(lastPrint := None,
        modes := g.modes.(noAutowrap := false, hideCursor := false, appCursor := false, appKeypad := false),
        savedRow := 0, savedCol := 0)
  }

  /** RIS. */
  function FullReset(g: Grid): (h: Grid)
    requires Shape(g)
    ensures Shape(h) && SameConfig(g, h)
  {
    g.(primary := BlankScreen(g.rows, g.cols), alternate := BlankScreen(g.rows, g.cols),
       pendingWrap := false, row := 0, col := 0, pen := DEFAULT_ATTRS, activeLink := None, lastPrint := None,
       scrollTop := 0, scrollBottom := g.rows - 1,
       modes := DEFAULT_MODES, mouseMode := MouseNone, mouseEncoding := MouseDefault, textCursor := None,
       history := g.history.(offset := 0), dirty := AllDirty)
  }

  // ---- resize ----

  function ResizeRows(cells: seq<Row>, cols: nat): (r: seq<Row>)
    ensures |r| == |cells| && forall i | 0 <= i < |r| :: r[i] == ResizeRow(cells[i], cols)
  {
    seq(|cells|, i requires 0 <= i < |cells| => ResizeRow(cells[i], cols))
  }

  function ResizeScreen(s: Screen, rows: u16, cols: u16): Screen
    requires |s.cells| == |s.wraps|
  {
    var cells := if |s.cells| > 0 && |s.cells[0]| != cols then ResizeRows(s.cells, cols) else s.cells;
    if rows <= |cells| then Screen(cells[..rows], s.wraps[..rows])
    else Screen(cells + Repeat(BlankRow(cols), rows - |cells|), s.wraps + Repeat(Hard, rows - |cells|))
  }

  lemma {:induction false} ResizeScreenShape(s: Screen, oldRows: nat, oldCols: nat, rows: u16, cols: u16)
    requires ScreenShape(s, oldRows, oldCols)
    ensures ScreenShape(ResizeScreen(s, rows, cols), rows, cols)
  {
  }

  /** `set_size`: zero dimensions are clamped to one. */
  function Resize(g: Grid, rows0: u16, cols0: u16): (h: Grid)
    requires Shape(g) && cols0 <= MAX_COLS
    ensures Shape(h) && SameConfig(g, h)
  {
    var rows: u16 := Max(rows0, 1);
    var cols: u16 := Max(cols0, 1);
    ResizeScreenShape(g.primary, g.rows, g.cols, rows, cols);
    ResizeScreenShape(g.alternate, g.rows, g.cols, rows, cols);
    ClearPendingWrap(
      g.(rows := rows, cols := cols,
         primary := ResizeScreen(g.primary, rows, cols), alternate := ResizeScreen(g.alternate, rows, cols),
         row := Min(g.row, rows - 1), col := Min(g.col, cols - 1),
         scrollTop := 0, scrollBottom := rows - 1))
      .(dirty := AllDirty)
  }

  // ---- C0 controls ----

  function LineFeed(g: Grid): (h: Grid)
    requires Shape(g)
    ensures Shape(h) && SameConfig(g, h)
  {
    Newline(ClearPendingWrap(g), Hard)
  }

  function CarriageReturn(g: Grid): (h: Grid)
    requires Shape(g)
    ensures Shape(h) && SameConfig(g, h)
  {
    ClearPendingWrap(g).(col := 0)
  }

  function Backspace(g: Grid): (h: Grid)
    requires Shape(g)
    ensures Shape(h) && SameConfig(g, h)
  {
    if g.pendingWrap then ClearPendingWrap(g) else if g.col > 0 then g.(col := g.col - 1) else g
  }

  function Tab(g: Grid): (h: Grid)
    requires Shape(g)
    ensures Shape(h) && SameConfig(g, h)
  {
    var g1 := ClearPendingWrap(g);
    var nextTab: u16 := (g1.col / 8 + 1) * 8;
    g1.(col := Min(nextTab, g1.cols - 1))
  }

  function Execute(g: Grid, byte: u8): (h: Grid)
    requires Shape(g)
    ensures Shape(h) && SameConfig(g, h)
  {
    if 0x0a <= byte <= 0x0c then LineFeed(g)
    else if byte == 0x0d then CarriageReturn(g)
    else if byte == 0x08 then Backspace(g)
    else if byte == 0x09 then Tab(g)
    else if byte == 0x07 then g.(passthrough := g.passthrough + [BellRang])
    else g
  }

  // ---- cursor positioning ----

  datatype Move =
    | Up(n: u16)
    | Down(n: u16)
    | Forward(n: u16)
    | Back(n: u16)
    | NextLine(n: u16)
    | PreviousLine(n: u16)
    | ToColumn(n: u16)
    | ToRow(n: u16)
    | To(row: u16, col: u16)

  function Offset(position: u16, offset: u16, max: u16): u16 {
    Min(SatAdd(position, offset), max)
  }

  function RowAfter(m: Move, row: u16, rows: u16): (r: u16)
    requires row < rows
    ensures r < rows
  {
    match m
    case Up(n) => SatSub(row, Max(n, 1))
    case PreviousLine(n) => SatSub(row, Max(n, 1))
    case Down(n) => Offset(row, Max(n, 1), rows - 1)
    case NextLine(n) => Offset(row, Max(n, 1), rows - 1)
    case ToRow(n) => Min(SatSub(n, 1), rows - 1)
    case To(r, _) => Min(SatSub(r, 1), rows - 1)
    case _ => row
  }

  function ColAfter(m: Move, col: u16, cols: u16): (c: u16)
    requires col < cols
    ensures c < cols
  {
    match m
    case Forward(n) => Offset(col, Max(n, 1), cols - 1)
    case Back(n) => SatSub(col, Max(n, 1))
    case NextLine(_) => 0
    case PreviousLine(_) => 0
    case ToColumn(n) => Min(SatSub(n, 1), cols - 1)
    case To(_, c) => Min(SatSub(c, 1), cols - 1)
    case _ => col
  }

  /** CUU, CUD, CUF, CUB, CNL, CPL, CHA, VPA and CUP; all of them cancel a deferred wrap first. */
  function MoveCursor(g: Grid, m: Move): (h: Grid)
    requires Shape(g)
    ensures Shape(h) && SameConfig(g, h)
  {
    var g1 := ClearPendingWrap(g);
    g1.(row := RowAfter(m, g1.row, g1.rows), col := ColAfter(m, g1.col, g1.cols))
  }

  // ---- replies ----

  function MouseModeNumber(m: MouseMode): u16 {
    match m
    case MouseNone => 0
    case Press => 1000
    case PressRelease => 1002
    case ButtonMotion => 1002
    case AnyEvent => 1003
    case AnyMotion => 1003
  }

  function MouseEncodingNumber(e: MouseEncoding): u16 {
    match e
    case MouseDefault => 0
    case Utf8Encoding => 1005
    case SgrEncoding => 1006
    case UrxvtEncoding => 1015
  }

  function SetOrReset(on: bool): u16 {
    if on then 1 else 2
  }

  /** `decrqm_status`: 1 set, 2 reset, 0 not recognized. */
  function ModeStatus(m: Modes, cursor: Option<bool>, mouse: MouseMode, encoding: MouseEncoding, profile: Profile,
      mode: u16): u16
  {
    match mode
    case 1 => SetOrReset(m.appCursor)
    case 7 => SetOrReset(!m.noAutowrap)
    case 12 => SetOrReset(cursor == Some(true))
    case 25 => SetOrReset(!m.hideCursor)
    case 47 => SetOrReset(m.alt)
    case 1047 => SetOrReset(m.alt)
    case 1049 => SetOrReset(m.alt)
    case 1000 => SetOrReset(MouseModeNumber(mouse) == 1000)
    case 1002 => SetOrReset(MouseModeNumber(mouse) == 1002)
    case 1003 => SetOrReset(MouseModeNumber(mouse) == 1003)
    case 1004 => SetOrReset(m.focusEvents)
    case 1005 => SetOrReset(MouseEncodingNumber(encoding) == 1005)
    case 1006 => SetOrReset(MouseEncodingNumber(encoding) == 1006)
    case 1015 => SetOrReset(MouseEncodingNumber(encoding) == 1015)
    case 2004 => SetOrReset(m.bracketedPaste)
    case 2026 => SetOrReset(m.syncUpdate)
    case 2027 => profile.clusterModeStatus
    case _ => 0
  }

  function StatusOf(g: Grid, mode: u16): u16 {
    ModeStatus(g.modes, g.textCursor, g.mouseMode, g.mouseEncoding, g.profile, mode)
  }

  /** DSR: `5` answers ready, `6` answers the cursor with the phantom column clamped. */
  function StatusReport(g: Grid, p0: u16, dec: bool): Grid
    requires Shape(g)
  {
    if p0 == 5 then g.(passthrough := g.passthrough + [StatusReply])
    else if p0 == 6 then
      g.(passthrough := g.passthrough + [CursorReply(g.row + 1, Min(g.col, g.cols - 1) + 1, dec)])
    else g
  }

  function KittyPush(g: Grid, p0: u16): Grid {
    var flags := Max(p0, 1);
    g.(kitty := if |g.kitty| < KITTY_STACK_CAP then g.kitty + [flags] else g.kitty,
       passthrough := g.passthrough + [KittyForward(true, flags)])
  }

  function KittyPop(g: Grid, p0: u16): Grid {
    var count := Max(p0, 1);
    g.(kitty := g.kitty[..|g.kitty| - Min(count, |g.kitty|)],
       passthrough := g.passthrough + [KittyForward(false, count)])
  }

  // ---- the machine ----

  /** Parsed events; parameters are the raw values, absent ones being 0. */
  datatype Event =
    | Print(ch: char)
    | Control(byte: u8)
    | Cursor(move: Move)
    | EraseInDisplay(mode: u16)
    | EraseInLine(mode: u16)
    | EraseCharacters(n: u16)
    | InsertCharacters(n: u16)
    | DeleteCharacters(n: u16)
    | InsertLines(n: u16)
    | DeleteLines(n: u16)
    | ScrollUpBy(n: u16)
    | ScrollDown(n: u16)
    | ReverseLine
    | Graphics(params: seq<Sgr.Param>)
    | PrivateModes(modes: seq<u16>, on: bool)
    | Region(top: u16, bottom: u16)
    | Save
    | Restore
    | Keypad(on: bool)
    | Style(n: u16)
    | ResetSoft
    | ResetFull
    | Link(link: Option<Hyperlink>)
    | KittyUp(n: u16)
    | KittyDown(n: u16)
    | Report(n: u16, dec: bool)
    | AskMode(mode: u16, dec: bool)
    | SetSize(rows: u16, cols: u16)
    | Ignored

  /** The one demand on events: no grid wider than the tab arithmetic allows. */
  predicate EventOk(e: Event) {
    e.SetSize? ==> e.cols <= MAX_COLS
  }

  function Step(g: Grid, e: Event): (h: Grid)
    requires Shape(g) && EventOk(e)
    ensures Shape(h) && SameConfig(g, h)
  {
    match e
    case Print(ch) => WriteChar(g, ch)
    case Control(byte) => Execute(g, byte)
    case Cursor(m) => MoveCursor(g, m)
    case EraseInDisplay(mode) => EraseDisplay(g, mode)
    case EraseInLine(mode) => EraseLine(g, mode)
    case EraseCharacters(n) => EraseChars(g, n)
    case InsertCharacters(n) => InsertChars(g, n)
    case DeleteCharacters(n) => DeleteChars(g, n)
    case InsertLines(n) => InsertLinesAt(g, n)
    case DeleteLines(n) => DeleteLinesAt(g, n)
    case ScrollUpBy(n) => ScrollUp(g, Max(n, 1), Hard)
    case ScrollDown(n) => ScrollDownBy(g, n)
    case ReverseLine => ReverseIndex(g)
    case Graphics(params) => g.(pen := Sgr.ApplySgr(params, g.pen))
    case PrivateModes(modes, on) => SetDecModes(g, modes, on)
    case Region(top, bottom) => SetRegion(g, top, bottom)
    case Save => SaveCursor(g)
    case Restore => RestoreSavedCursor(g)
    case Keypad(on) => g.(modes := g.modes.(appKeypad := on))
    case Style(n) => g.(cursorStyle := n)
    case ResetSoft => SoftReset(g)
    case ResetFull => FullReset(g)
    case Link(link) => g.(activeLink := link)
    case KittyUp(n) => KittyPush(g, n)
    case KittyDown(n) => KittyPop(g, n)
    case Report(n, dec) => StatusReport(g, n, dec)
    case AskMode(mode, dec) =>
      g.(passthrough := g.passthrough + [ModeReply(mode, if dec then StatusOf(g, mode) else 0, dec)])
    case SetSize(rows, cols) => Resize(g, rows, cols)
    case Ignored => g
  }

  // ---- the dispatch, a few events at a time ----

  lemma {:induction false} StepText(g: Grid, e: Event)
    requires Shape(g) && EventOk(e)
    ensures e.Print? ==> Step(g, e) == WriteChar(g, e.ch)
    ensures e.Control? ==> Step(g, e) == Execute(g, e.byte)
    ensures e.EraseInDisplay? ==> Step(g, e) == EraseDisplay(g, e.mode)
    ensures e.PrivateModes? ==> Step(g, e) == SetDecModes(g, e.modes, e.on)
  {
    hide WriteChar, Execute, EraseDisplay, SetDecModes, Shape;
  }

  lemma {:induction false} StepRowEdit(g: Grid, e: Event)
    requires Shape(g) && EventOk(e)
    ensures e.EraseInLine? ==> Step(g, e) == EraseLine(g, e.mode)
    ensures e.EraseCharacters? ==> Step(g, e) == EraseChars(g, e.n)
    ensures e.InsertCharacters? ==> Step(g, e) == InsertChars(g, e.n)
    ensures e.DeleteCharacters? ==> Step(g, e) == DeleteChars(g, e.n)
  {
    hide EraseLine, EraseChars, InsertChars, DeleteChars, Shape;
  }

  lemma {:induction false} StepLines(g: Grid, e: Event)
    requires Shape(g) && EventOk(e)
    ensures e.InsertLines? ==> Step(g, e) == InsertLinesAt(g, e.n)
    ensures e.DeleteLines? ==> Step(g, e) == DeleteLinesAt(g, e.n)
    ensures e.ScrollUpBy? ==> Step(g, e) == ScrollUp(g, Max(e.n, 1), Hard)
    ensures e.ScrollDown? ==> Step(g, e) == ScrollDownBy(g, e.n)
    ensures e.ReverseLine? ==> Step(g, e) == ReverseIndex(g)
  {
    hide InsertLinesAt, DeleteLinesAt, ScrollUp, ScrollDownBy, ReverseIndex, Shape;
  }

  lemma {:induction false} StepCursor(g: Grid, e: Event)
    requires Shape(g) && EventOk(e)
    ensures e.Cursor? ==> Step(g, e) == MoveCursor(g, e.move)
    ensures e.Region? ==> Step(g, e) == SetRegion(g, e.top, e.bottom)
    ensures e.Save? ==> Step(g, e) == SaveCursor(g)
    ensures e.Restore? ==> Step(g, e) == RestoreSavedCursor(g)
  {
    hide MoveCursor, SetRegion, SaveCursor, RestoreSavedCursor, Shape;
  }

  lemma {:induction false} StepReset(g: Grid, e: Event)
    requires Shape(g) && EventOk(e)
    ensures e.ResetSoft? ==> Step(g, e) == SoftReset(g)
    ensures e.ResetFull? ==> Step(g, e) == FullReset(g)
    ensures e.SetSize? ==> e.cols <= MAX_COLS && Step(g, e) == Resize(g, e.rows, e.cols)
  {
    hide SoftReset, FullReset, Resize, Shape;
  }

  lemma {:induction false} StepReply(g: Grid, e: Event)
    requires Shape(g) && EventOk(e)
    ensures e.KittyUp? ==> Step(g, e) == KittyPush(g, e.n)
    ensures e.KittyDown? ==> Step(g, e) == KittyPop(g, e.n)
    ensures e.Report? ==> Step(g, e) == StatusReport(g, e.n, e.dec)
  {
    hide KittyPush, KittyPop, StatusReport, Shape;
  }

  predicate EventsOk(es: seq<Event>) {
    forall i | 0 <= i < |es| :: EventOk(es[i])
  }

  /** A whole run, left to right. */
  function Run(g: Grid, es: seq<Event>): (h: Grid)
    requires Shape(g) && EventsOk(es)
    ensures Shape(h) && SameConfig(g, h)
    decreases |es|
  {
    if es == [] then g else Run(Step(g, es[0]), es[1..])
  }
}
