/** Plain text typed into a fresh grid (src/grid.rs): where every character and every soft row ends up. */
module Typing {
  import opened Basics
  import opened Cells
  import opened Rows
  import opened GridModel
  import opened Invariant
  import opened Serialize
  import opened Replay
  import opened DeferredWrap
  import opened Provenance

  /** Characters of one column each. */
  predicate Narrow(p: Profile, s: string) {
    forall i | 0 <= i < |s| :: p.charWidth(s[i]) == 1
  }

  /** Number of cells before `(r, c)` in reading order. */
  function Place(cols: nat, r: nat, c: nat): nat {
    r * cols + c
  }

  /** Cell `(r, c)` holds the character of `s` at that place in reading order, or nothing. */
  predicate Holds(cell: Cell, s: string, k: nat) {
    !cell.wide && !cell.cont && cell.contents == if k < |s| then [s[k]] else ""
  }

  /** The primary screen reads as `s`, wrapped at the margin, and exactly the rows a wrap entered are soft. */
  ghost predicate Reads(g: Grid, s: string) {
    && |g.primary.cells| == g.rows == |g.primary.wraps|
    && (forall r | 0 <= r < g.rows :: |g.primary.cells[r]| == g.cols)
    && (forall r: nat, c: nat | r < g.rows && c < g.cols :: Holds(g.primary.cells[r][c], s, Place(g.cols, r, c)))
    && (forall r | 0 <= r < g.rows :: g.primary.wraps[r] == if 1 <= r <= g.row then Soft else Hard)
  }

  /** The cursor stands behind the last character, parked at the margin when a row is full. */
  ghost predicate Behind(g: Grid, s: string) {
    && Place(g.cols, g.row, g.col) == |s| && (s == "" || g.col >= 1)
    && (g.lastPrint == if s == "" then None else Some((g.row, g.col)))
    && g.scrollTop == 0 && g.scrollBottom == g.rows - 1 && g.modes == DEFAULT_MODES
  }

  lemma {:induction false} RowsApart(cols: nat, r: nat, r': nat)
    requires r < r'
    ensures r * cols + cols <= r' * cols
    decreases r'
  {
    if r + 1 < r' { RowsApart(cols, r, r' - 1); }
    assert r' * cols == (r' - 1) * cols + cols;
  }

  lemma {:induction false} ReadingOrder(cols: nat, r: nat, c: nat, r': nat, c': nat)
    requires c < cols && c' < cols
    ensures Place(cols, r, c) < Place(cols, r', c') <==> r < r' || (r == r' && c < c')
  {
    if r < r' { RowsApart(cols, r, r'); }
    if r' < r { RowsApart(cols, r', r); }
  }

  /** A full row that is not the last is followed by another. */
  lemma {:induction false} RowFollows(rows: nat, cols: nat, r: nat)
    requires r < rows && Place(cols, r, cols) < Place(cols, rows, 0)
    ensures r + 1 < rows && Place(cols, r + 1, 0) == Place(cols, r, cols)
    ensures Place(cols, r + 1, 1) == Place(cols, r, cols) + 1
  {
    assert (r + 1) * cols == r * cols + cols;
  }

  lemma {:induction false} ColumnFollows(cols: nat, r: nat, c: nat)
    ensures Place(cols, r, c + 1) == Place(cols, r, c) + 1
  {
  }

  lemma {:induction false} FreshReads(p: Profile, rows: u16, cols: u16, limit: nat)
    requires rows >= 1 && 1 <= cols <= MAX_COLS
    ensures var f := Fresh(p, rows, cols, limit);
            && f.profile == p && f.rows == rows && f.cols == cols
            && WF(f) && Shape(f) && Reads(f, "") && Behind(f, "")
  {
    FreshIsWF(p, rows, cols, limit);
  }

  /** The cell before the cursor ends in no joiner, so the next character starts a cell of its own. */
  lemma {:induction false} StartsOwnCell(g: Grid, s: string, ch: char)
    requires WF(g) && Reads(g, s) && Behind(g, s) && Narrow(g.profile, s) && g.profile.charWidth(ch) == 1
    ensures !Absorbed(g, ch) && !Suppressed(g, ch)
  {
    if s != "" {
      var c := g.col - 1;
      assert Holds(g.primary.cells[g.row][c], s, Place(g.cols, g.row, c));
    }
  }

  /** One more character read, when it was written at its place and every other cell stayed. */
  lemma {:induction false} ReadsMore(g: Grid, h: Grid, s: string, ch: char, row: nat, col: nat)
    requires Reads(g, s) && row < g.rows && col < g.cols && Place(g.cols, row, col) == |s|
    requires h.rows == g.rows && h.cols == g.cols && |h.primary.cells| == g.rows
    requires forall r | 0 <= r < g.rows :: |h.primary.cells[r]| == g.cols
    requires forall r, c | 0 <= r < g.rows && 0 <= c < g.cols && !(r == row && c == col) ::
      h.primary.cells[r][c] == g.primary.cells[r][c]
    requires Holds(h.primary.cells[row][col], [ch], 0)
    ensures forall r: nat, c: nat | r < g.rows && c < g.cols ::
      Holds(h.primary.cells[r][c], s + [ch], Place(g.cols, r, c))
  {
    hide Place;
    forall r: nat, c: nat | r < g.rows && c < g.cols
      ensures Holds(h.primary.cells[r][c], s + [ch], Place(g.cols, r, c))
    {
      ReadingOrder(g.cols, r, c, row, col);
      ReadingOrder(g.cols, row, col, r, c);
      assert Holds(g.primary.cells[r][c], s, Place(g.cols, r, c));
    }
  }

  /** A narrow glyph written over a narrow row changes one cell. */
  lemma {:induction false} NarrowWritten(was: Row, now: Row, col: nat, cell: Cell)
    requires col < |was| && GlyphWritten(was, now, col, cell) && !cell.wide
    requires forall c | 0 <= c < |was| :: !was[c].wide && !was[c].cont
    ensures |now| == |was| && forall c | 0 <= c < |was| :: now[c] == if c == col then cell else was[c]
  {
  }

  lemma {:induction false} RowIsNarrow(g: Grid, s: string, r: nat)
    requires Reads(g, s) && r < g.rows
    ensures |g.primary.cells[r]| == g.cols
    ensures forall c | 0 <= c < g.cols :: !g.primary.cells[r][c].wide && !g.primary.cells[r][c].cont
  {
    forall c | 0 <= c < g.cols ensures !g.primary.cells[r][c].wide && !g.primary.cells[r][c].cont {
      assert Holds(g.primary.cells[r][c], s, Place(g.cols, r, c));
    }
  }

  lemma {:induction false} TypeInRow(g: Grid, s: string, ch: char)
    requires WF(g) && Reads(g, s) && Behind(g, s) && Narrow(g.profile, s) && g.profile.charWidth(ch) == 1
    requires g.col < g.cols
    ensures var h := Step(g, Print(ch));
            h.rows == g.rows && h.cols == g.cols && Reads(h, s + [ch]) && Behind(h, s + [ch])
  {
    hide Step, ScreenOk, Absorbed, Suppressed, GlyphWritten, Holds, Extended, Place;
    StartsOwnCell(g, s, ch);
    ColumnFollows(g.cols, g.row, g.col);
    PrintStays(g, ch);
    PrintIsText(g, ch);
    var h := Step(g, Print(ch));
    RowIsNarrow(g, s, g.row);
    NarrowWritten(ActiveRow(g), ActiveRow(h), g.col, Glyph(g, ch));
    assert Holds(Glyph(g, ch), [ch], 0) by { GlyphHolds(g, ch); }
    ReadsMore(g, h, s, ch, g.row, g.col);
  }

  lemma {:induction false} GlyphHolds(g: Grid, ch: char)
    requires g.profile.charWidth(ch) == 1
    ensures Holds(Glyph(g, ch), [ch], 0) && !Glyph(g, ch).wide
  {
  }

  lemma {:induction false} TypeIntoNextRow(g: Grid, s: string, ch: char)
    requires WF(g) && Reads(g, s) && Behind(g, s) && Narrow(g.profile, s) && g.profile.charWidth(ch) == 1
    requires g.col == g.cols && |s| < Place(g.cols, g.rows, 0)
    ensures var h := Step(g, Print(ch));
            h.rows == g.rows && h.cols == g.cols && Reads(h, s + [ch]) && Behind(h, s + [ch])
  {
    hide Step, ScreenOk, Absorbed, Suppressed, GlyphWritten, Holds, Place;
    StartsOwnCell(g, s, ch);
    WrapGoesDown(g, ch);
    PrintIsText(g, ch);
    var h := Step(g, Print(ch));
    RowFollows(g.rows, g.cols, g.row);
    RowIsNarrow(g, s, g.row + 1);
    NarrowWritten(g.primary.cells[g.row + 1], ActiveRow(h), 0, Glyph(g, ch));
    assert Holds(Glyph(g, ch), [ch], 0) by { GlyphHolds(g, ch); }
    ReadsMore(g, h, s, ch, g.row + 1, 0);
  }

  lemma {:induction false} PrintAllSnoc(s: string, ch: char)
    ensures PrintAll(s + [ch]) == PrintAll(s) + [Print(ch)]
  {
  }

  lemma {:induction false} TypeOneMore(g: Grid, s: string, ch: char)
    requires WF(g) && Reads(g, s) && Behind(g, s) && Narrow(g.profile, s) && g.profile.charWidth(ch) == 1
    requires |s| < Place(g.cols, g.rows, 0)
    ensures var h := Step(g, Print(ch));
            h.rows == g.rows && h.cols == g.cols && Reads(h, s + [ch]) && Behind(h, s + [ch])
  {
    hide Step, Reads, Behind, ScreenOk, ScreenShape;
    if g.col < g.cols { TypeInRow(g, s, ch); } else { TypeIntoNextRow(g, s, ch); }
  }

  lemma {:induction false} PlaceOfRow(cols: nat, rows: nat)
    ensures Place(cols, rows, 0) == rows * cols
  {
  }

  /**
    * Text of one-column characters typed into a fresh grid of any size it fits: cell `(r, c)` holds character
    * `r * cols + c`, a row is soft exactly when the text ran into it from the row above, and the cursor stands behind
    * the last character.
    */
  lemma {:induction false} TextFillsRows(p: Profile, rows: u16, cols: u16, limit: nat, s: string)
    requires rows >= 1 && 1 <= cols <= MAX_COLS && |s| <= Place(cols, rows, 0) && Narrow(p, s)
    ensures var g := Run(Fresh(p, rows, cols, limit), PrintAll(s));
            g.rows == rows && g.cols == cols && WF(g) && Reads(g, s) && Behind(g, s)
    decreases |s|
  {
    hide Step, WF, Reads, Behind, Place, Fresh, Shape;
    FreshReads(p, rows, cols, limit);
    var f := Fresh(p, rows, cols, limit);
    if s == "" {
      RunNothing(f);
      assert PrintAll(s) == [];
    } else {
      var front, last := s[..|s| - 1], s[|s| - 1];
      assert front + [last] == s;
      PrintAllSnoc(front, last);
      TextFillsRows(p, rows, cols, limit, front);
      var g := Run(f, PrintAll(front));
      RunSplit(f, PrintAll(front), [Print(last)]);
      RunOne(g, Print(last));
      RunKeepsProfile(f, PrintAll(front));
      StepKeeps(g, Print(last));
      TypeOneMore(g, front, last);
    }
  }
}
