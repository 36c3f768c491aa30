/** The grid behind the byte stream: the parser's laws discharged for it, and batching proved invisible to it. */
module GridStream {
  import opened Basics
  import opened Rows
  import opened Damage
  import opened GridModel
  import opened Invariant
  import opened Utf8
  import opened Chunking
  import opened SeqTracker
  import opened SyncFrames

  // ---- which events move the synchronized-update bit ----

  /** The two that can, both dispatched by the final byte of a sequence: a mode list and a full reset. */
  predicate MovesSync(e: Event) {
    e.PrivateModes? || e.ResetFull?
  }

  predicate SameSync(g: Grid, h: Grid) {
    h.modes.syncUpdate == g.modes.syncUpdate
  }

  lemma {:induction false} ScrollSync(g: Grid, count: u16, wrap: RowWrap)
    requires Shape(g)
    ensures SameSync(g, ScrollUp(g, count, wrap)) && SameSync(g, Newline(g, wrap))
  {
    hide ShiftUp, Remember, MarkRows, ScreenShape;
  }

  lemma {:induction false} PutSync(g: Grid, ch: char, width: nat)
    requires Shape(g) && 1 <= width <= 2
    ensures SameSync(g, PutChar(g, ch, width))
  {
    hide ScreenShape, PutGlyph, PutStart, PutEnd, MarkRange;
  }

  lemma {:induction false} JoinSync(g: Grid, ch: char, width: nat)
    requires Shape(g)
    ensures Append(g, ch, width).Some? ==> SameSync(g, Append(g, ch, width).value)
  {
    hide ScreenShape, JoinCluster, MarkRange, CursorAfterJoin;
  }

  lemma {:induction false} WriteSync(g: Grid, ch: char)
    requires Shape(g)
    ensures SameSync(g, WriteChar(g, ch))
  {
    hide ScreenShape, Append, PutChar, Newline;
    var g0, width := Touch(g), g.profile.charWidth(ch);
    JoinSync(g0, ch, width);
    if Append(g0, ch, width).None? {
      var g1 := g0.(pendingWrap := false, col := 0);
      ScrollSync(g1, 1, Soft);
      PutSync(Newline(g1, Soft), ch, width);
      PutSync(g0, ch, width);
      PutSync(g0.(pendingWrap := false, col := Min(g0.col, g0.cols - 1)), ch, width);
    }
  }

  lemma {:induction false} EraseSync(g: Grid, mode: u16)
    requires Shape(g)
    ensures SameSync(g, EraseDisplay(g, mode)) && SameSync(g, EraseLine(g, mode))
  {
    hide ScreenShape, EraseCells, PenBlankRow, MarkRange, Preserve;
    PreserveFrame(g);
  }

  lemma {:induction false} InRowSync(g: Grid, n: u16)
    requires Shape(g)
    ensures SameSync(g, EraseChars(g, n)) && SameSync(g, InsertChars(g, n)) && SameSync(g, DeleteChars(g, n))
  {
    hide ScreenShape, EraseCells, InsertCells, DeleteCells, MarkRange;
  }

  lemma {:induction false} LinesSync(g: Grid, n: u16)
    requires Shape(g)
    ensures SameSync(g, InsertLinesAt(g, n)) && SameSync(g, DeleteLinesAt(g, n)) && SameSync(g, ScrollDownBy(g, n))
    ensures SameSync(g, ReverseIndex(g))
  {
    hide ScreenShape, ShiftUp, ShiftDown;
  }

  lemma {:induction false} ControlSync(g: Grid, byte: u8)
    requires Shape(g)
    ensures SameSync(g, Execute(g, byte))
  {
    hide ScreenShape, Newline;
    if 0x0a <= byte <= 0x0c {
      ScrollSync(ClearPendingWrap(g), 1, Hard);
    } else if byte == 0x09 {
      assert Tab(g).modes == g.modes;
    }
  }

  lemma {:induction false} SettingSync(g: Grid, e: Event)
    requires Shape(g) && EventOk(e)
    requires e.Cursor? || e.Region? || e.Save? || e.Restore? || e.ResetSoft? || e.SetSize?
    ensures SameSync(g, Step(g, e))
  {
    hide ScreenShape, RowAfter, ColAfter, ResizeScreen;
    if e.SetSize? {
      ResizeScreenShape(g.primary, g.rows, g.cols, Max(e.rows, 1), Max(e.cols, 1));
      ResizeScreenShape(g.alternate, g.rows, g.cols, Max(e.rows, 1), Max(e.cols, 1));
    }
  }

  lemma {:induction false} PlainSync(g: Grid, e: Event)
    requires Shape(g) && PlainEvent(e)
    ensures SameSync(g, Step(g, e))
  {
    hide Step, ScreenShape;
    PlainFrame(g, e);
  }

  lemma {:induction false} EditSync(g: Grid, e: Event)
    requires Shape(g)
    requires e.EraseCharacters? || e.InsertCharacters? || e.DeleteCharacters? || e.ScrollUpBy? || e.InsertLines?
             || e.DeleteLines? || e.ScrollDown? || e.ReverseLine?
    ensures SameSync(g, Step(g, e))
  {
    hide Shape, SameSync, EraseChars, InsertChars, DeleteChars, InsertLinesAt, DeleteLinesAt, ScrollUp, ScrollDownBy,
      ReverseIndex;
    if e.ReverseLine? {
      LinesSync(g, 0);
    } else if e.ScrollUpBy? {
      ScrollSync(g, Max(e.n, 1), Hard);
    } else if EditsRow(e) {
      InRowSync(g, e.n);
    } else {
      LinesSync(g, e.n);
    }
  }

  /** Every event other than a mode list and a full reset leaves the bit alone. */
  lemma {:induction false} StepSync(g: Grid, e: Event)
    requires Shape(g) && EventOk(e) && !MovesSync(e)
    ensures SameSync(g, Step(g, e))
  {
    hide Shape, SameSync, WriteChar, Execute, EraseDisplay, EraseLine;
    if e.Print? {
      WriteSync(g, e.ch);
    } else if e.Control? {
      ControlSync(g, e.byte);
    } else if e.EraseInDisplay? || e.EraseInLine? {
      EraseSync(g, e.mode);
    } else if EditsRow(e) || e.ScrollUpBy? || e.InsertLines? || e.DeleteLines? || e.ScrollDown? || e.ReverseLine? {
      EditSync(g, e);
    } else if PlainEvent(e) {
      PlainSync(g, e);
    } else {
      SettingSync(g, e);
    }
  }

  lemma {:induction false} RunSync(g: Grid, es: seq<Event>)
    requires Shape(g) && EventsOk(es) && forall i | 0 <= i < |es| :: !MovesSync(es[i])
    ensures SameSync(g, Run(g, es))
    decreases |es|
  {
    hide Step, Shape, MovesSync;
    if es != [] {
      StepSync(g, es[0]);
      RunSync(Step(g, es[0]), es[1..]);
    }
  }

  // ---- the grid as a parser ----

  /** The external parser: a byte step, the events it dispatches, and its position in a sequence. */
  datatype Vte<!X> = Vte(step: (X, u8) -> X, emits: (X, u8) -> seq<Event>, position: X -> SeqState)

  /** It moves as the tracker says, and dispatches mode lists and resets only on the way back to ground. */
  ghost predicate VteLawful<X(!new)>(v: Vte<X>) {
    && (forall x: X, b: u8 :: v.position(v.step(x, b)) == Advance(v.position(x), b))
    && (forall x: X, b: u8 :: EventsOk(v.emits(x, b)))
    && (forall x: X, b: u8 :: v.position(x) == Ground || v.position(v.step(x, b)) != Ground ==>
          forall i | 0 <= i < |v.emits(x, b)| :: !MovesSync(v.emits(x, b)[i]))
  }

  function Fed(g: Grid, es: seq<Event>): Grid {
    if Shape(g) && EventsOk(es) then Run(g, es) else g
  }

  function GridParser<X>(v: Vte<X>): Parser<(X, Grid)> {
    Parser((s: (X, Grid), b: u8) => (v.step(s.0, b), Fed(s.1, v.emits(s.0, b))),
           (s: (X, Grid)) => v.position(s.0),
           (s: (X, Grid)) => s.1.modes.syncUpdate)
  }

  /** The grid behind such a parser obeys the laws the frame count relies on. */
  lemma {:induction false} GridParserLawful<X(!new)>(v: Vte<X>)
    requires VteLawful(v)
    ensures Lawful(GridParser(v))
  {
    hide Run, Shape, EventsOk, MovesSync;
    var p := GridParser(v);
    forall s: (X, Grid), b: u8 | p.inSync(p.step(s, b)) != p.inSync(s)
      ensures p.position(s) != Ground && p.position(p.step(s, b)) == Ground
    {
      var es := v.emits(s.0, b);
      if (forall i | 0 <= i < |es| :: !MovesSync(es[i])) && Shape(s.1) && EventsOk(es) { RunSync(s.1, es); }
    }
  }

  /**
    * Batching is invisible: any two ways to deliver the same bytes leave the same grid, the same parser, the same
    * pending bytes and the same count of completed synchronized updates.
    */
  lemma {:induction false} GridIgnoresBatching<X(!new)>(v: Vte<X>, x: X, g: Grid, a: seq<Bytes>, b: seq<Bytes>)
    requires VteLawful(v) && Concat(a) == Concat(b)
    ensures var start := Start(GridParser(v), (x, g));
            FeedBatches(GridParser(v), start, a) == FeedBatches(GridParser(v), start, b)
    ensures FeedBatches(GridParser(v), Start(GridParser(v), (x, g)), a).frames
        == Edges(GridParser(v), (x, g), Released(Concat(a)))
  {
    hide FeedBatches, Lawful, VteLawful, GridParser;
    GridParserLawful(v);
    FramesIgnoreBatching(GridParser(v), (x, g), a, b);
  }
}
