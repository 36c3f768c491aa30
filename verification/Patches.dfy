/** `GridPatch` (src/snapshot.rs): the spans a consumer copies, and the screen it then holds. */
module Patches {
  import opened Basics
  import opened Rows
  import opened Damage
  import opened DirtyTracking
  import opened GridModel
  import opened Invariant
  import opened DamageMirror

  /** One item of `changed_spans`: cells to copy to `row` from column `start`. */
  datatype Patch = Patch(row: u16, start: u16, cells: Row)

  predicate ViewShape(view: seq<Row>, rows: nat, cols: nat) {
    |view| == rows && forall r | 0 <= r < rows :: |view[r]| == cols
  }

  /** The patch of one dirty span: none when the span misses the screen. */
  function SpanPatch(d: DirtySpan, screen: seq<Row>, cols: u16): Option<Patch> {
    if d.row >= |screen| then None
    else
      var row := screen[d.row];
      var start, end := Min(d.span.start, cols), Min(d.span.end, cols);
      if start >= end || start >= |row| then None
      else Some(Patch(d.row, d.span.start, row[start..Min(end, |row|)]))
  }

  function FullRowPatch(screen: seq<Row>, r: u16, cols: u16): Patch
    requires r < |screen|
  {
    Patch(r, 0, screen[r][..Min(cols, |screen[r]|)])
  }

  function PatchesOf(d: DirtySpans, screen: seq<Row>, cols: u16): seq<Patch>
    requires |screen| <= 0xFFFF
  {
    match d
    case All => seq(|screen|, r requires 0 <= r < |screen| => FullRowPatch(screen, r, cols))
    case Rows(spans) => RowPatches(spans, screen, cols)
  }

  function RowPatches(spans: seq<DirtySpan>, screen: seq<Row>, cols: u16): seq<Patch> {
    if spans == [] then []
    else
      var front := RowPatches(spans[..|spans| - 1], screen, cols);
      match SpanPatch(spans[|spans| - 1], screen, cols)
      case None => front
      case Some(p) => front + [p]
  }

  /** The iterator behind `changed_spans`, run to its end. */
  method ChangedSpans(d: DirtySpans, screen: seq<Row>, cols: u16) returns (ps: seq<Patch>)
    requires |screen| <= 0xFFFF
    ensures ps == PatchesOf(d, screen, cols)
  {
    ps := [];
    var i := 0;
    match d {
      case All =>
        while i < |screen|
          invariant 0 <= i <= |screen| && |ps| == i
          invariant forall r: int | 0 <= r < i :: ps[r] == FullRowPatch(screen, r, cols)
        {
          ps := ps + [FullRowPatch(screen, i, cols)];
          i := i + 1;
        }
      case Rows(spans) =>
        while i < |spans|
          invariant 0 <= i <= |spans| && ps == RowPatches(spans[..i], screen, cols)
        {
          assert spans[..i + 1][..i] == spans[..i];
          match SpanPatch(spans[i], screen, cols) {
            case None =>
            case Some(p) => ps := ps + [p];
          }
          i := i + 1;
        }
        assert spans[..i] == spans;
    }
  }

  // ---- the consumer ----

  /** Copy one patch into a held picture. */
  function Copied(view: seq<Row>, p: Patch): (r: seq<Row>)
    ensures |r| == |view|
  {
    if p.row < |view| && p.start + |p.cells| <= |view[p.row]| then
      var row := view[p.row];
      view[p.row := row[..p.start] + p.cells + row[p.start + |p.cells|..]]
    else view
  }

  function AllCopied(view: seq<Row>, ps: seq<Patch>): (r: seq<Row>)
    ensures |r| == |view|
  {
    if ps == [] then view else Copied(AllCopied(view, ps[..|ps| - 1]), ps[|ps| - 1])
  }

  predicate InSpan(d: DirtySpan, r: nat, c: nat) {
    d.row == r && d.span.start <= c < d.span.end
  }

  /** A picture that shows `screen` where `covered` says so and `view` elsewhere. */
  ghost predicate Blend(view: seq<Row>, screen: seq<Row>, now: seq<Row>, covered: (nat, nat) -> bool) {
    && |now| == |view| == |screen|
    && forall r | 0 <= r < |view| ::
         |now[r]| == |view[r]| == |screen[r]|
         && forall c | 0 <= c < |view[r]| :: now[r][c] == if covered(r, c) then screen[r][c] else view[r][c]
  }

  lemma {:induction false} SpanCopies(view: seq<Row>, screen: seq<Row>, rows: u16, cols: u16, d: DirtySpan)
    requires ViewShape(view, rows, cols) && ViewShape(screen, rows, cols)
    ensures var now := match SpanPatch(d, screen, cols) case None => view case Some(p) => Copied(view, p);
            Blend(view, screen, now, (r: nat, c: nat) => InSpan(d, r, c))
  {
    if SpanPatch(d, screen, cols).Some? {
      var p := SpanPatch(d, screen, cols).value;
      var row := view[p.row];
      var now := row[..p.start] + p.cells + row[p.start + |p.cells|..];
      assert p.start == d.span.start && |p.cells| == Min(d.span.end, cols) - p.start;
      assert |now| == cols;
      assert Copied(view, p) == view[p.row := now];
      assert forall c | 0 <= c < cols :: now[c] == if InSpan(d, p.row, c) then screen[p.row][c] else row[c];
    }
  }

  lemma {:induction false} RowPatchesCopy(view: seq<Row>, screen: seq<Row>, rows: u16, cols: u16, spans: seq<DirtySpan>)
    requires ViewShape(view, rows, cols) && ViewShape(screen, rows, cols)
    ensures Blend(view, screen, AllCopied(view, RowPatches(spans, screen, cols)),
                  (r: nat, c: nat) => exists i | 0 <= i < |spans| :: InSpan(spans[i], r, c))
    decreases |spans|
  {
    hide SpanPatch, Copied, InSpan;
    if spans != [] {
      var n := |spans| - 1;
      var front, last := spans[..n], spans[n];
      RowPatchesCopy(view, screen, rows, cols, front);
      var mid := AllCopied(view, RowPatches(front, screen, cols));
      SpanCopies(mid, screen, rows, cols, last);
      var now := AllCopied(view, RowPatches(spans, screen, cols));
      assert now == (match SpanPatch(last, screen, cols) case None => mid case Some(p) => Copied(mid, p)) by {
        LastCopied(view, screen, cols, spans);
      }
      forall r: nat, c: nat
        ensures (exists i | 0 <= i < |spans| :: InSpan(spans[i], r, c))
                <==> (exists i | 0 <= i < |front| :: InSpan(front[i], r, c)) || InSpan(last, r, c)
      {
        SnocInSpan(spans, r, c);
      }
    }
  }

  lemma {:induction false} SnocInSpan(spans: seq<DirtySpan>, r: nat, c: nat)
    requires spans != []
    ensures var n := |spans| - 1;
            (exists i | 0 <= i < |spans| :: InSpan(spans[i], r, c))
            <==> (exists i | 0 <= i < n :: InSpan(spans[..n][i], r, c)) || InSpan(spans[n], r, c)
  {
    hide InSpan;
    var n := |spans| - 1;
    if i :| 0 <= i < |spans| && InSpan(spans[i], r, c) {
      assert i < n ==> InSpan(spans[..n][i], r, c);
    }
  }

  lemma {:induction false} LastCopied(view: seq<Row>, screen: seq<Row>, cols: u16, spans: seq<DirtySpan>)
    requires spans != []
    ensures var mid := AllCopied(view, RowPatches(spans[..|spans| - 1], screen, cols));
            AllCopied(view, RowPatches(spans, screen, cols)) ==
              match SpanPatch(spans[|spans| - 1], screen, cols) case None => mid case Some(p) => Copied(mid, p)
  {
    hide SpanPatch, Copied;
    var front := RowPatches(spans[..|spans| - 1], screen, cols);
    if SpanPatch(spans[|spans| - 1], screen, cols).Some? {
      var p := SpanPatch(spans[|spans| - 1], screen, cols).value;
      assert (front + [p])[..|front|] == front;
    }
  }

  lemma {:induction false} SpansCover(spans: seq<DirtySpan>, r: u16, c: u16)
    requires Sorted(spans)
    ensures Covers(RowsDirty(MapOf(spans)), r, c) <==> exists i | 0 <= i < |spans| :: InSpan(spans[i], r, c)
  {
    hide MapOf, Sorted;
    MapOfSorted(spans);
    if Covers(RowsDirty(MapOf(spans)), r, c) {
      var i :| 0 <= i < |spans| && spans[i].row == r;
      assert InSpan(spans[i], r, c);
    }
  }

  lemma {:induction false} FullRowCopied(view: seq<Row>, screen: seq<Row>, cols: u16, n: u16)
    requires n < |view| && n < |screen| && |view[n]| == |screen[n]| == cols
    ensures Copied(view, FullRowPatch(screen, n, cols)) == view[n := screen[n]]
  {
    var p := FullRowPatch(screen, n, cols);
    assert p.cells == screen[n];
    assert view[n][..0] + p.cells + view[n][|p.cells|..] == screen[n];
  }

  lemma {:induction false} FullRowsCopy(view: seq<Row>, screen: seq<Row>, rows: u16, cols: u16, ps: seq<Patch>)
    requires ViewShape(view, rows, cols) && ViewShape(screen, rows, cols) && |ps| <= rows
    requires forall r | 0 <= r < |ps| :: ps[r] == FullRowPatch(screen, r, cols)
    ensures AllCopied(view, ps) == screen[..|ps|] + view[|ps|..]
    decreases |ps|
  {
    if ps != [] {
      var n := |ps| - 1;
      FullRowsCopy(view, screen, rows, cols, ps[..n]);
      var mid := AllCopied(view, ps[..n]);
      assert mid[n] == view[n];
      FullRowCopied(mid, screen, cols, n);
      assert mid[n := screen[n]] == screen[..|ps|] + view[|ps|..];
    } else {
      assert AllCopied(view, ps) == view;
    }
  }

  // ---- the mirror ----

  /**
    * Over any run whose events stay within their marks, a consumer that held the old active screen and copies only the
    * drained spans holds the new one. After a size change it may start from any picture of the new size.
    */
  lemma {:induction false} MirrorRun(g: Grid, es: seq<Event>, d: DirtySpans, view: seq<Row>)
    requires WF(g) && g.dirty == CLEAN && EventsOk(es) && StaysMarked(g, es)
    requires Meaning(d) == Run(g, es).dirty && (d.Rows? ==> Sorted(d.spans))
    requires var s := Run(g, es);
             ViewShape(view, s.rows, s.cols) && (s.rows == g.rows && s.cols == g.cols ==> view == Active(g).cells)
    ensures var s := Run(g, es); AllCopied(view, PatchesOf(d, Active(s).cells, s.cols)) == Active(s).cells
  {
    hide Run, StaysMarked, ScreenOk, AllCopied, RowPatches, FullRowPatch, MapOf, Sorted, Covers;
    var s := Run(g, es);
    var screen := Active(s).cells;
    RunMirrors(g, es);
    match d {
      case All =>
        var ps := PatchesOf(d, screen, s.cols);
        FullRowsCopy(view, screen, s.rows, s.cols, ps);
        assert screen[..|ps|] + view[|ps|..] == screen;
      case Rows(spans) =>
        RowPatchesCopy(view, screen, s.rows, s.cols, spans);
        var now := AllCopied(view, RowPatches(spans, screen, s.cols));
        forall r: u16, c: u16 | r < s.rows && c < s.cols ensures now[r][c] == screen[r][c] {
          SpansCover(spans, r, c);
        }
        SamePicture(now, screen, s.rows, s.cols);
    }
  }

  lemma {:induction false} SamePicture(a: seq<Row>, b: seq<Row>, rows: u16, cols: u16)
    requires ViewShape(a, rows, cols) && ViewShape(b, rows, cols)
    requires forall r: u16, c: u16 | r < rows && c < cols :: a[r][c] == b[r][c]
    ensures a == b
  {
    forall r: u16 | r < rows ensures a[r] == b[r] {
      assert forall c: u16 | c < cols :: a[r][c] == b[r][c];
    }
    assert forall r: int | 0 <= r < rows :: a[r] == b[r];
  }

  // ---- counting ----

  function SpanWidth(d: DirtySpan, cols: u16): nat {
    var end := Min(d.span.end, cols);
    end - Min(d.span.start, end)
  }

  function PatchCells(ps: seq<Patch>): nat {
    if ps == [] then 0 else PatchCells(ps[..|ps| - 1]) + |ps[|ps| - 1].cells|
  }

  /** Cells of tracked rows that lie below the screen: counted, but never handed out. */
  function OffScreenCells(spans: seq<DirtySpan>, rows: nat, cols: u16): nat {
    if spans == [] then 0
    else
      var last := spans[|spans| - 1];
      OffScreenCells(spans[..|spans| - 1], rows, cols) + if last.row >= rows then SpanWidth(last, cols) else 0
  }

  /** `changed_cell_count`: the cells `changed_spans` will hand out, plus those of tracked rows below the screen. */
  method ChangedCellCount(d: DirtySpans, screen: seq<Row>, cols: u16) returns (count: nat)
    requires |screen| <= 0xFFFF && ViewShape(screen, |screen|, cols)
    ensures count == PatchCells(PatchesOf(d, screen, cols)) + if d.Rows? then OffScreenCells(d.spans, |screen|, cols)
        else 0
  {
    match d {
      case All =>
        FullRowCells(PatchesOf(d, screen, cols), cols);
        count := |screen| * cols;
      case Rows(spans) =>
        count := 0;
        var i := 0;
        while i < |spans|
          invariant 0 <= i <= |spans|
          invariant count == PatchCells(RowPatches(spans[..i], screen, cols)) + OffScreenCells(spans[..i], |screen|,
              cols)
        {
          SpanCells(spans[..i + 1], screen, cols);
          assert spans[..i + 1][..i] == spans[..i];
          count := count + SpanWidth(spans[i], cols);
          i := i + 1;
        }
        assert spans[..i] == spans;
    }
  }

  lemma {:induction false} SpanCells(spans: seq<DirtySpan>, screen: seq<Row>, cols: u16)
    requires spans != [] && ViewShape(screen, |screen|, cols)
    ensures PatchCells(RowPatches(spans, screen, cols)) + OffScreenCells(spans, |screen|, cols) ==
            PatchCells(RowPatches(spans[..|spans| - 1], screen, cols)) + OffScreenCells(spans[..|spans| - 1], |screen|,
                cols)
            + SpanWidth(spans[|spans| - 1], cols)
  {
    hide SpanPatch, SpanWidth;
    var front := RowPatches(spans[..|spans| - 1], screen, cols);
    var d := spans[|spans| - 1];
    SpanPatchSize(d, screen, cols);
    if SpanPatch(d, screen, cols).Some? {
      assert (front + [SpanPatch(d, screen, cols).value])[..|front|] == front;
    }
  }

  lemma {:induction false} SpanPatchSize(d: DirtySpan, screen: seq<Row>, cols: u16)
    requires ViewShape(screen, |screen|, cols)
    ensures (match SpanPatch(d, screen, cols) case None => 0 case Some(p) => |p.cells|)
            + (if d.row >= |screen| then SpanWidth(d, cols) else 0) == SpanWidth(d, cols)
  {
  }

  lemma {:induction false} FullRowCells(ps: seq<Patch>, cols: u16)
    requires forall i | 0 <= i < |ps| :: |ps[i].cells| == cols
    ensures PatchCells(ps) == |ps| * cols
    decreases |ps|
  {
    if ps != [] { FullRowCells(ps[..|ps| - 1], cols); }
  }
}
