/** The serializer (src/grid/serialize.rs): a grid state printed as the events that rebuild it. */
module Serialize {
  import opened Basics
  import opened Cells
  import opened Rows
  import opened GridModel
  import Sgr

  /** Cursor position during painting; `col` may be the phantom column. */
  datatype Pos = Pos(row: u16, col: u16)

  /** A pending erase run: start column and its uniform blank attributes. */
  datatype EraseRun = EraseRun(start: u16, attrs: Attrs)

  // ---- terminal writers ----

  function MoveTo(pos: Pos): (es: seq<Event>)
    requires pos.row < U16_MAX && pos.col < U16_MAX
    ensures EventsOk(es)
  {
    if pos.row == 0 && pos.col == 0 then [Cursor(To(0, 0))] else [Cursor(To(pos.row + 1, pos.col + 1))]
  }

  function MoveFromTo(from: Pos, to: Pos): (es: seq<Event>)
    requires to.row < U16_MAX && to.col < U16_MAX
    ensures EventsOk(es)
  {
    if to.row == from.row + 1 && to.col == 0 then [Control(0x0d), Control(0x0a)]
    else if from.row == to.row && from.col < to.col then
      if to.col - from.col == 1 then [Cursor(Forward(0))] else [Cursor(Forward(to.col - from.col))]
    else if to != from then MoveTo(to)
    else []
  }

  function EraseCount(n: u16): (es: seq<Event>)
    ensures EventsOk(es)
  {
    if n == 0 then [] else if n == 1 then [EraseCharacters(0)] else [EraseCharacters(n)]
  }

  function PrintAll(s: string): (es: seq<Event>)
    ensures |es| == |s| && forall i | 0 <= i < |s| :: es[i] == Print(s[i])
    ensures EventsOk(es)
  {
    seq(|s|, i requires 0 <= i < |s| => Print(s[i]))
  }

  function AttrsTo(target: Attrs, prev: Attrs): (es: seq<Event>)
    ensures EventsOk(es)
  {
    match Sgr.AttrsDiff(target, prev)
    case None => []
    case Some(ps) => [Graphics(ps)]
  }

  function Mode(mode: u16, on: bool): (es: seq<Event>)
    ensures EventsOk(es)
  {
    [PrivateModes([mode], on)]
  }

  // ---- row painting ----

  /** The cell a printable at `col` could join from the right. */
  function LeftCell(row: Row, col: nat): Cell
    requires 0 < col <= |row|
  {
    if row[col - 1].cont && col >= 2 then row[col - 2] else row[col - 1]
  }

  predicate ZwjJoinHazard(row: Row, col: nat)
    requires col <= |row|
  {
    col > 0 && EndsWithZwj(LeftCell(row, col).contents)
  }

  /** A printable consumed by the pending wrap would join the last cell of the row above. */
  predicate ZwjWrapHazard(prevRow: Option<Row>) {
    prevRow.Some? && |prevRow.value| > 0 && ZwjJoinHazard(prevRow.value, |prevRow.value|)
  }

  datatype RowCtx = RowCtx(
    cells: Row,
    prevRow: Option<Row>,
    row: u16,
    wrapping: bool,
    profile: Profile)

  ghost predicate CtxOk(ctx: RowCtx) {
    ctx.row < U16_MAX && 1 <= |ctx.cells| <= MAX_COLS
  }

  predicate NaturalWrap(ctx: RowCtx, pos: Pos, prevPos: Pos) {
    ctx.wrapping && prevPos.row + 1 == pos.row && prevPos.col >= |ctx.cells| && pos.col == 0
  }

  /** The move that precedes a content cell; none for a natural wrap that joins nothing. */
  function ContentMove(ctx: RowCtx, pos: Pos, prevPos: Pos): (es: seq<Event>)
    requires CtxOk(ctx) && pos.row == ctx.row && pos.col < |ctx.cells|
    ensures EventsOk(es)
  {
    if pos != prevPos then
      if NaturalWrap(ctx, pos, prevPos) then
        if ZwjWrapHazard(ctx.prevRow) then MoveTo(pos) else []
      else MoveFromTo(prevPos, pos)
    else if ZwjJoinHazard(ctx.cells, pos.col) then MoveTo(pos)
    else []
  }

  /** Does replaying `cell` print a wide scalar first and then narrow it? */
  predicate NarrowsOnReplay(p: Profile, cell: Cell) {
    !cell.wide && cell.contents != "" && p.charWidth(cell.contents[0]) > 1
  }

  /** Painter state between cells. */
  datatype Painter = Painter(
    out: seq<Event>,
    pos: Pos,
    attrs: Attrs,
    erase: Option<EraseRun>,
    skip: bool,
    repaint: bool)

  predicate PainterOk(st: Painter, cols: nat) {
    EventsOk(st.out) && (st.erase.Some? ==> st.erase.value.start < cols <= MAX_COLS)
  }

  /** `flush_erase_run`: ECH up to `end` mid-row, EL for the trailing run. */
  function FlushErase(st: Painter, row: u16, end: Option<u16>): (t: Painter)
    requires EventsOk(st.out) && row < U16_MAX
    requires st.erase.Some? ==> st.erase.value.start < U16_MAX && (end.Some? ==> st.erase.value.start <= end.value)
    ensures EventsOk(t.out) && t.erase.None?
  {
    match st.erase
    case None => st
    case Some(run) =>
      var pos := Pos(row, run.start);
      var move := MoveFromTo(st.pos, pos);
      var sgr := AttrsTo(run.attrs, st.attrs);
      var erase: seq<Event> := if end.Some? then EraseCount(end.value - run.start) else [EraseInLine(0)];
      st.(out := st.out + move + sgr + erase, pos := pos, attrs := run.attrs, erase := None)
  }

  /** Write one content cell. */
  function WriteCell(ctx: RowCtx, st: Painter, col: u16): (t: Painter)
    requires CtxOk(ctx) && EventsOk(st.out) && col < |ctx.cells|
    ensures EventsOk(t.out)
  {
    var cell := ctx.cells[col];
    var pos := Pos(ctx.row, col);
    var move := ContentMove(ctx, pos, st.pos);
    var sgr := AttrsTo(cell.attrs, st.attrs);
    var width := if cell.wide then 1 else 0;
    st.(out := st.out + move + sgr + PrintAll(cell.contents),
        pos := Pos(ctx.row, Min(col + 1 + width, |ctx.cells|)),
        attrs := cell.attrs)
  }

  predicate MustFlush(st: Painter, cell: Cell) {
    st.erase.Some? && (cell.HasContents() || cell.attrs != st.erase.value.attrs)
  }

  /** The part both painters share: flush, then write or open an erase run when `paint` says so. */
  function PaintCell(ctx: RowCtx, st: Painter, col: u16, paint: bool): (t: Painter)
    requires CtxOk(ctx) && PainterOk(st, |ctx.cells|) && col < |ctx.cells|
    requires st.erase.Some? ==> st.erase.value.start <= col
    ensures PainterOk(t, |ctx.cells|)
    ensures t.erase.Some? ==> t.erase.value.start <= col
  {
    var cell := ctx.cells[col];
    var st1 := if MustFlush(st, cell) then FlushErase(st, ctx.row, Some(col)) else st;
    if !paint then st1
    else if cell.HasContents() then WriteCell(ctx, st1, col)
    else if st1.erase.None? then st1.(erase := Some(EraseRun(col, cell.attrs)))
    else st1
  }

  /** One iteration of `write_row_formatted`. */
  function FormatCell(ctx: RowCtx, st: Painter, col: u16): (t: Painter)
    requires CtxOk(ctx) && PainterOk(st, |ctx.cells|) && col < |ctx.cells|
    requires st.erase.Some? ==> st.erase.value.start <= col
    ensures PainterOk(t, |ctx.cells|)
    ensures t.erase.Some? ==> t.erase.value.start <= col
  {
    if st.skip then st.(skip := false)
    else PaintCell(ctx, st, col, ctx.cells[col] != DEFAULT_CELL).(skip := ctx.cells[col].wide)
  }

  function FormatFrom(ctx: RowCtx, st: Painter, col: nat): (t: Painter)
    requires CtxOk(ctx) && PainterOk(st, |ctx.cells|) && col <= |ctx.cells|
    requires st.erase.Some? ==> st.erase.value.start <= col
    ensures PainterOk(t, |ctx.cells|)
    decreases |ctx.cells| - col
  {
    if col == |ctx.cells| then st else FormatFrom(ctx, FormatCell(ctx, st, col), col + 1)
  }

  /** Space, backspace, erase: drive a pending wrap into a blank first cell. */
  const WRAP_JOG: seq<Event> := [Print(' '), Control(0x08), EraseCharacters(0)]

  /** The opening of a formatted row whose first cell is blank on a soft-wrapped line. */
  function FormatStart(ctx: RowCtx, out: seq<Event>, pos: Pos, attrs: Attrs): (st: Painter)
    requires CtxOk(ctx) && EventsOk(out)
    ensures PainterOk(st, |ctx.cells|) && st.erase.None? && !st.skip
  {
    if ctx.wrapping && ctx.cells[0] == DEFAULT_CELL then
      if pos.row + 1 == ctx.row && pos.col >= |ctx.cells| && !ZwjWrapHazard(ctx.prevRow) then
        Painter(out + AttrsTo(DEFAULT_ATTRS, attrs) + WRAP_JOG, Pos(ctx.row, 0), DEFAULT_ATTRS, None, false, false)
      else
        Painter(out + MoveTo(Pos(ctx.row, 0)), Pos(ctx.row, 0), attrs, None, false, false)
    else Painter(out, pos, attrs, None, false, false)
  }

  /** `write_row_formatted`. */
  function FormatRow(ctx: RowCtx, out: seq<Event>, pos: Pos, attrs: Attrs): (st: Painter)
    requires CtxOk(ctx) && EventsOk(out)
    ensures EventsOk(st.out)
  {
    FlushErase(FormatFrom(ctx, FormatStart(ctx, out, pos, attrs), 0), ctx.row, None)
  }

  /** One iteration of `write_row_diff`. */
  function DiffCell(ctx: RowCtx, prev: Row, st: Painter, col: u16): (t: Painter)
    requires CtxOk(ctx) && PainterOk(st, |ctx.cells|) && col < |ctx.cells| == |prev|
    requires st.erase.Some? ==> st.erase.value.start <= col
    ensures PainterOk(t, |ctx.cells|)
    ensures t.erase.Some? ==> t.erase.value.start <= col
  {
    if st.skip then st.(skip := false)
    else
      var cell := ctx.cells[col];
      var paint := st.repaint || cell != prev[col];
      PaintCell(ctx, st, col, paint)
        .(skip := cell.wide, repaint := paint && cell.HasContents() && NarrowsOnReplay(ctx.profile, cell))
  }

  function DiffFrom(ctx: RowCtx, prev: Row, st: Painter, col: nat): (t: Painter)
    requires CtxOk(ctx) && PainterOk(st, |ctx.cells|) && col <= |ctx.cells| == |prev|
    requires st.erase.Some? ==> st.erase.value.start <= col
    ensures PainterOk(t, |ctx.cells|)
    decreases |ctx.cells| - col
  {
    if col == |ctx.cells| then st else DiffFrom(ctx, prev, DiffCell(ctx, prev, st, col), col + 1)
  }

  predicate WrapRedraw(ctx: RowCtx, prev: Row, prevWrapping: bool, pos: Pos)
    requires |ctx.cells| == |prev| >= 1
  {
    && ctx.wrapping && !prevWrapping && ctx.cells[0] == prev[0]
    && pos.row + 1 == ctx.row && pos.col >= |ctx.cells| && !ZwjWrapHazard(ctx.prevRow)
  }

  function DiffStart(ctx: RowCtx, prev: Row, prevWrapping: bool, out: seq<Event>, pos: Pos, attrs: Attrs): (st: Painter)
    requires CtxOk(ctx) && EventsOk(out) && |ctx.cells| == |prev|
    ensures PainterOk(st, |ctx.cells|) && st.erase.None? && !st.skip
  {
    var first := ctx.cells[0];
    if WrapRedraw(ctx, prev, prevWrapping, pos) then
      if first.HasContents() then Painter(out, pos, attrs, None, false, true)
      else Painter(out + AttrsTo(first.attrs, attrs) + WRAP_JOG, Pos(ctx.row, 0), first.attrs, None, false, false)
    else Painter(out, pos, attrs, None, false, false)
  }

  /** `write_row_diff`. */
  function DiffRow(ctx: RowCtx, prev: Row, prevWrapping: bool, out: seq<Event>, pos: Pos, attrs: Attrs): (st: Painter)
    requires CtxOk(ctx) && EventsOk(out) && |ctx.cells| == |prev|
    ensures EventsOk(st.out)
  {
    FlushErase(DiffFrom(ctx, prev, DiffStart(ctx, prev, prevWrapping, out, pos, attrs), 0), ctx.row, None)
  }

  // ---- cursor restore ----

  /** Redraw the cell at `col`, returning to the pen afterwards; the write re-parks the cursor. */
  function RedrawLast(row: u16, col: u16, cell: Cell, attrs: Attrs): (es: seq<Event>)
    requires row < U16_MAX && col < U16_MAX
    ensures EventsOk(es)
  {
    MoveTo(Pos(row, col)) + AttrsTo(cell.attrs, attrs) + PrintAll(cell.contents) + AttrsTo(attrs, cell.attrs)
  }

  /** Save the parked cursor, erase the space that parked it, restore. */
  const ERASE_UNDER_CURSOR: seq<Event> := [Save, Control(0x08), EraseCharacters(0), Restore]

  /** Park over a blank last cell: print a space, then erase it under a saved cursor. */
  function JogLast(row: u16, col: u16, cell: Cell, attrs: Attrs): (es: seq<Event>)
    requires row < U16_MAX && col < U16_MAX
    ensures EventsOk(es)
  {
    MoveTo(Pos(row, col)) + ([Print(' ')] + AttrsTo(cell.attrs, attrs)) + (ERASE_UNDER_CURSOR + AttrsTo(attrs,
        cell.attrs))
  }

  /** `write_cursor_position_formatted`: re-arm a phantom by redrawing or jogging over the last cell. */
  function CursorRestore(cells: seq<Row>, cursor: Pos, cols: u16, pos: Pos, attrs: Attrs): (es: seq<Event>)
    requires cursor.row < |cells| && cursor.row < U16_MAX && 1 <= cols <= MAX_COLS && cursor.col <= cols
    requires |cells[cursor.row]| == cols
    ensures EventsOk(es)
  {
    if pos != cursor && cursor.col >= cols then
      var row := cells[cursor.row];
      var lead: u16 := if cols >= 2 && row[cols - 1].cont then cols - 2 else cols - 1;
      if row[lead].HasContents() then RedrawLast(cursor.row, lead, row[lead], attrs)
      else JogLast(cursor.row, cols - 1, row[cols - 1], attrs)
    else if pos == cursor then []
    else MoveFromTo(pos, cursor)
  }

  // ---- contents ----

  predicate Continues(g: Grid, row: nat)
    requires Shape(g)
  {
    0 < row < g.rows && Active(g).wraps[row] == Soft
  }

  function CtxAt(g: Grid, row: nat): (ctx: RowCtx)
    requires Shape(g) && row < g.rows
    ensures CtxOk(ctx) && |ctx.cells| == g.cols
  {
    RowCtx(Active(g).cells[row], if row > 0 then Some(Active(g).cells[row - 1]) else None, row,
           Continues(g, row), g.profile)
  }

  /** Rows from `row` down, appended to `out`. */
  function FormatRows(g: Grid, row: nat, out: seq<Event>, pos: Pos, attrs: Attrs): (st: Painter)
    requires Shape(g) && row <= g.rows && EventsOk(out)
    ensures EventsOk(st.out)
    decreases g.rows - row
  {
    if row == g.rows then Painter(out, pos, attrs, None, false, false)
    else
      var st := FormatRow(CtxAt(g, row), out, pos, attrs);
      FormatRows(g, row + 1, st.out, st.pos, st.attrs)
  }

  function RowsThenCursor(g: Grid, st: Painter): (es: seq<Event>)
    requires Shape(g) && EventsOk(st.out) && g.row < U16_MAX
    ensures EventsOk(es)
  {
    st.out + CursorRestore(Active(g).cells, Pos(g.row, g.col), g.cols, st.pos, st.attrs) + AttrsTo(g.pen, st.attrs)
  }

  /** SGR reset, home, clear. */
  const CLEAR: seq<Event> := [Graphics([[0]]), Cursor(To(0, 0)), EraseInDisplay(0)]

  /** `write_contents_full_paint`. */
  function FullPaint(g: Grid): (es: seq<Event>)
    requires Shape(g)
    ensures EventsOk(es)
  {
    RowsThenCursor(g, FormatRows(g, 0, CLEAR, Pos(0, 0), DEFAULT_ATTRS))
  }

  function AutowrapTail(g: Grid): (es: seq<Event>)
    ensures EventsOk(es)
  {
    if g.modes.noAutowrap then Mode(7, false) else []
  }

  function ContentsFormatted(g: Grid): (es: seq<Event>)
    requires Shape(g)
    ensures EventsOk(es)
  {
    var settings := Mode(7, true) + Mode(25, !g.modes.hideCursor);
    settings + FullPaint(g) + AutowrapTail(g)
  }

  function DiffRows(g: Grid, prev: Grid, row: nat, out: seq<Event>, pos: Pos, attrs: Attrs): (st: Painter)
    requires Shape(g) && Shape(prev) && g.rows == prev.rows && g.cols == prev.cols
    requires row <= g.rows && EventsOk(out)
    ensures EventsOk(st.out)
    decreases g.rows - row
  {
    if row == g.rows then Painter(out, pos, attrs, None, false, false)
    else
      var st := DiffRow(CtxAt(g, row), Active(prev).cells[row], Continues(prev, row), out, pos, attrs);
      DiffRows(g, prev, row + 1, st.out, st.pos, st.attrs)
  }

  function SizeOf(g: Grid): (u16, u16) {
    (g.rows, g.cols)
  }

  /** The painting part of `write_contents_diff`. */
  function DiffPaint(g: Grid, prev: Grid): (es: seq<Event>)
    requires Shape(g) && Shape(prev)
    ensures EventsOk(es)
  {
    if SizeOf(g) != SizeOf(prev) || g.modes.alt != prev.modes.alt then FullPaint(g)
    else RowsThenCursor(g, DiffRows(g, prev, 0, [], Pos(prev.row, prev.col), prev.pen))
  }

  function ContentsDiff(g: Grid, prev: Grid): (es: seq<Event>)
    requires Shape(g) && Shape(prev)
    ensures EventsOk(es)
  {
    Mode(7, true)
      + (if g.modes.hideCursor != prev.modes.hideCursor then Mode(25, !g.modes.hideCursor) else [])
      + DiffPaint(g, prev) + AutowrapTail(g)
  }

  // ---- input modes ----

  function MouseModeTo(mode: MouseMode, prev: MouseMode): (es: seq<Event>)
    ensures EventsOk(es)
  {
    var m, p := MouseModeNumber(mode), MouseModeNumber(prev);
    if m == p then [] else if m == 0 then Mode(p, false) else Mode(m, true)
  }

  function MouseEncodingTo(encoding: MouseEncoding, prev: MouseEncoding): (es: seq<Event>)
    ensures EventsOk(es)
  {
    var m, p := MouseEncodingNumber(encoding), MouseEncodingNumber(prev);
    if m == p then [] else if m == 0 then Mode(p, false) else Mode(m, true)
  }

  function KeysFormatted(g: Grid): (es: seq<Event>)
    ensures EventsOk(es)
  {
    (Mode(7, !g.modes.noAutowrap) + [Keypad(g.modes.appKeypad)])
      + (Mode(1, g.modes.appCursor) + Mode(2004, g.modes.bracketedPaste))
  }

  function ScreenFormatted(g: Grid): (es: seq<Event>)
    ensures EventsOk(es)
  {
    (if g.modes.alt then Mode(1049, true) else []) + Mode(25, !g.modes.hideCursor) + [Style(g.cursorStyle)]
  }

  function InputModeFormatted(g: Grid): (es: seq<Event>)
    ensures EventsOk(es)
  {
    KeysFormatted(g)
      + (MouseModeTo(g.mouseMode, MouseNone) + MouseEncodingTo(g.mouseEncoding, MouseDefault))
      + ScreenFormatted(g)
  }

  function FlagTo(mode: u16, on: bool, prev: bool): (es: seq<Event>)
    ensures EventsOk(es)
  {
    if on == prev then [] else Mode(mode, on)
  }

  function KeypadTo(on: bool, prev: bool): (es: seq<Event>)
    ensures EventsOk(es)
  {
    if on == prev then [] else [Keypad(on)]
  }

  function StyleTo(style: u16, prev: u16): (es: seq<Event>)
    ensures EventsOk(es)
  {
    if style == prev then [] else [Style(style)]
  }

  function KeysDiff(g: Grid, prev: Grid): (es: seq<Event>)
    ensures EventsOk(es)
  {
    (FlagTo(7, !g.modes.noAutowrap, !prev.modes.noAutowrap) + KeypadTo(g.modes.appKeypad, prev.modes.appKeypad))
      + (FlagTo(1, g.modes.appCursor, prev.modes.appCursor)
         + FlagTo(2004, g.modes.bracketedPaste, prev.modes.bracketedPaste))
  }

  function ScreenDiff(g: Grid, prev: Grid): (es: seq<Event>)
    ensures EventsOk(es)
  {
    FlagTo(1049, g.modes.alt, prev.modes.alt)
      + FlagTo(25, !g.modes.hideCursor, !prev.modes.hideCursor)
      + StyleTo(g.cursorStyle, prev.cursorStyle)
  }

  function InputModeDiff(g: Grid, prev: Grid): (es: seq<Event>)
    ensures EventsOk(es)
  {
    KeysDiff(g, prev)
      + (MouseModeTo(g.mouseMode, prev.mouseMode) + MouseEncodingTo(g.mouseEncoding, prev.mouseEncoding))
      + ScreenDiff(g, prev)
  }

  /** `state_formatted`. */
  function StateFormatted(g: Grid): (es: seq<Event>)
    requires Shape(g)
    ensures EventsOk(es)
  {
    InputModeFormatted(g) + ContentsFormatted(g)
  }

  /** `state_diff`. */
  function StateDiff(g: Grid, prev: Grid): (es: seq<Event>)
    requires Shape(g) && Shape(prev)
    ensures EventsOk(es)
  {
    InputModeDiff(g, prev) + ContentsDiff(g, prev)
  }

  // ---- the contract ----

  predicate RowsLookAlike(a: seq<Row>, b: seq<Row>) {
    |a| == |b| && forall r | 0 <= r < |a| :: RowLooksLike(a[r], b[r])
  }

  predicate RowLooksLike(a: Row, b: Row) {
    |a| == |b| && forall i | 0 <= i < |a| :: SameLook(a[i], b[i])
  }

  /** `state_eq`: equality over the replay contract. */
  predicate StateEq(a: Grid, b: Grid) {
    && a.rows == b.rows && a.cols == b.cols
    && RowsLookAlike(Active(a).cells, Active(b).cells)
    && a.row == b.row && a.col == b.col
    && a.pen == b.pen
    && a.modes.noAutowrap == b.modes.noAutowrap
    && a.modes.appKeypad == b.modes.appKeypad
    && a.modes.appCursor == b.modes.appCursor
    && a.modes.bracketedPaste == b.modes.bracketedPaste
    && MouseModeNumber(a.mouseMode) == MouseModeNumber(b.mouseMode)
    && MouseEncodingNumber(a.mouseEncoding) == MouseEncodingNumber(b.mouseEncoding)
    && a.modes.alt == b.modes.alt
    && a.modes.hideCursor == b.modes.hideCursor
    && a.cursorStyle == b.cursorStyle
  }
}
