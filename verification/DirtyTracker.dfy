/** The damage tracker as built (src/damage.rs): a fixed sorted array, refining the map of module Damage. */
module DirtyTracking {
  import opened Basics
  import opened Damage

  datatype DirtySpan = DirtySpan(row: u16, span: Span)

  datatype DirtySpans = All | Rows(spans: seq<DirtySpan>)

  predicate Sorted(s: seq<DirtySpan>) {
    forall i, j | 0 <= i < j < |s| :: s[i].row < s[j].row
  }

  predicate HasRow(s: seq<DirtySpan>, row: u16) {
    exists i | 0 <= i < |s| :: s[i].row == row
  }

  /** The map a span list stands for. */
  function MapOf(s: seq<DirtySpan>): map<u16, Span> {
    if s == [] then map[] else MapOf(s[..|s| - 1])[s[|s| - 1].row := s[|s| - 1].span]
  }

  function Meaning(d: DirtySpans): Dirty {
    match d
    case All => AllDirty
    case Rows(spans) => RowsDirty(MapOf(spans))
  }

  lemma {:induction false} MapOfHasOnly(s: seq<DirtySpan>, r: u16)
    requires r in MapOf(s)
    ensures HasRow(s, r)
    decreases |s|
  {
    var front := s[..|s| - 1];
    if r == s[|s| - 1].row {
      assert HasRow(s, r);
    } else {
      MapOfHasOnly(front, r);
      var i :| 0 <= i < |front| && front[i].row == r;
      assert s[i].row == r;
    }
  }

  lemma {:induction false} MapOfEntry(s: seq<DirtySpan>, i: nat)
    requires Sorted(s) && i < |s|
    ensures s[i].row in MapOf(s) && MapOf(s)[s[i].row] == s[i].span
    decreases |s|
  {
    if i < |s| - 1 {
      var front := s[..|s| - 1];
      MapOfEntry(front, i);
      assert front[i] == s[i] && s[i].row < s[|s| - 1].row;
    }
  }

  lemma {:induction false} MapOfSize(s: seq<DirtySpan>)
    requires Sorted(s)
    ensures |MapOf(s)| == |s|
    decreases |s|
  {
    if s != [] {
      var front, last := s[..|s| - 1], s[|s| - 1];
      MapOfSize(front);
      assert forall i | 0 <= i < |front| :: front[i].row < last.row;
      assert last.row !in MapOf(front) by {
        if last.row in MapOf(front) { MapOfHasOnly(front, last.row); }
      }
      assert MapOf(s).Keys == MapOf(front).Keys + {last.row};
    }
  }

  /** On a strictly sorted list every entry is its row's value, and there are no others. */
  lemma {:induction false} MapOfSorted(s: seq<DirtySpan>)
    requires Sorted(s)
    ensures |MapOf(s)| == |s|
    ensures forall i | 0 <= i < |s| :: s[i].row in MapOf(s) && MapOf(s)[s[i].row] == s[i].span
    ensures forall r | r in MapOf(s) :: HasRow(s, r)
  {
    hide MapOf, Sorted, HasRow;
    MapOfSize(s);
    forall i | 0 <= i < |s| ensures s[i].row in MapOf(s) && MapOf(s)[s[i].row] == s[i].span { MapOfEntry(s, i); }
    forall r | r in MapOf(s) ensures HasRow(s, r) { MapOfHasOnly(s, r); }
  }

  lemma {:induction false} MapOfIs(s: seq<DirtySpan>, m: map<u16, Span>)
    requires Sorted(s)
    requires forall i | 0 <= i < |s| :: s[i].row in m && m[s[i].row] == s[i].span
    requires forall r | r in m :: HasRow(s, r)
    ensures MapOf(s) == m
  {
    hide MapOf, Sorted;
    MapOfSorted(s);
    forall r | r in m ensures r in MapOf(s) && MapOf(s)[r] == m[r] {
      var i :| 0 <= i < |s| && s[i].row == r;
    }
    forall r | r in MapOf(s) ensures r in m {
      var i :| 0 <= i < |s| && s[i].row == r;
    }
  }

  lemma {:induction false} UpdateMeans(s: seq<DirtySpan>, k: nat, span: Span)
    requires Sorted(s) && k < |s|
    ensures Sorted(s[k := DirtySpan(s[k].row, span)])
    ensures MapOf(s[k := DirtySpan(s[k].row, span)]) == MapOf(s)[s[k].row := span]
  {
    hide MapOf;
    var t, m := s[k := DirtySpan(s[k].row, span)], MapOf(s)[s[k].row := span];
    MapOfSorted(s);
    forall r | r in m ensures HasRow(t, r) {
      if r == s[k].row {
        assert t[k].row == r;
      } else {
        var i :| 0 <= i < |s| && s[i].row == r;
        assert t[i].row == r;
      }
    }
    MapOfIs(t, m);
  }

  function InsertAt(s: seq<DirtySpan>, k: nat, x: DirtySpan): seq<DirtySpan>
    requires k <= |s|
  {
    s[..k] + [x] + s[k..]
  }

  lemma {:induction false} InsertMeans(s: seq<DirtySpan>, k: nat, x: DirtySpan)
    requires Sorted(s) && k <= |s|
    requires forall i | 0 <= i < k :: s[i].row < x.row
    requires forall i | k <= i < |s| :: x.row < s[i].row
    ensures Sorted(InsertAt(s, k, x)) && MapOf(InsertAt(s, k, x)) == MapOf(s)[x.row := x.span]
    ensures x.row !in MapOf(s)
  {
    hide MapOf;
    var t, m := InsertAt(s, k, x), MapOf(s)[x.row := x.span];
    assert forall i | 0 <= i < |t| :: t[i] == if i < k then s[i] else if i == k then x else s[i - 1];
    MapOfSorted(s);
    assert Sorted(t);
    forall r | r in m ensures HasRow(t, r) { InsertHasRow(s, k, x, r); }
    hide Sorted, InsertAt;
    MapOfIs(t, m);
  }

  lemma {:induction false} InsertHasRow(s: seq<DirtySpan>, k: nat, x: DirtySpan, r: u16)
    requires k <= |s| && (r == x.row || HasRow(s, r))
    ensures HasRow(InsertAt(s, k, x), r)
  {
    var t := InsertAt(s, k, x);
    if r == x.row {
      assert t[k].row == r;
    } else {
      var i :| 0 <= i < |s| && s[i].row == r;
      assert t[if i < k then i else i + 1].row == r;
    }
  }

  /** `DirtyTracker` with its inline `DirtyRows`. */
  class DirtyTracker {
    const rows: array<DirtySpan>
    var len: nat
    var allDirty: bool

    ghost predicate Valid()
      reads this, rows
    {
      && rows.Length == MAX_TRACKED_DIRTY_ROWS && len <= rows.Length
      && Sorted(rows[..len])
      && (allDirty ==> len == 0)
    }

    /** What the tracker stands for. */
    ghost function Value(): Dirty
      reads this, rows
      requires Valid()
    {
      if allDirty then AllDirty else RowsDirty(MapOf(rows[..len]))
    }

    constructor ()
      ensures Valid() && fresh(rows) && Value() == CLEAN
    {
      rows := new DirtySpan[MAX_TRACKED_DIRTY_ROWS](_ => DirtySpan(0, Span(0, U16_MAX)));
      len := 0;
      allDirty := false;
    }

    /** `binary_search_by_key`: the index of the row, or where it would go. */
    method Search(row: u16) returns (found: bool, at: nat)
      requires Valid()
      ensures at <= len
      ensures found ==> at < len && rows[at].row == row
      ensures !found ==> forall i | 0 <= i < at :: rows[i].row < row
      ensures !found ==> forall i | at <= i < len :: row < rows[i].row
    {
      var lo, hi := 0, len;
      while lo < hi
        invariant 0 <= lo <= hi <= len
        invariant forall i | 0 <= i < lo :: rows[i].row < row
        invariant forall i | hi <= i < len :: row < rows[i].row
      {
        var mid := (lo + hi) / 2;
        assert forall i, j | 0 <= i < j < len :: rows[..len][i].row < rows[..len][j].row;
        if rows[mid].row == row {
          return true, mid;
        } else if rows[mid].row < row {
          lo := mid + 1;
        } else {
          hi := mid;
        }
      }
      return false, lo;
    }

    /** `push_or_merge`; a failure leaves the list as it was. */
    method PushOrMerge(row: u16, start: u16, end: u16) returns (ok: bool)
      requires Valid() && !allDirty && start < end
      modifies this`len, rows
      ensures Valid()
      ensures ok <==> row in MapOf(old(rows[..len])) || old(len) < MAX_TRACKED_DIRTY_ROWS
      ensures ok ==> Value() == MarkRange(old(Value()), row, start, end)
      ensures !ok ==> len == old(len) && rows[..] == old(rows[..])
    {
      hide MapOf, Sorted;
      ghost var was := rows[..len];
      MapOfSorted(was);
      var found, at := Search(row);
      if found {
        MergeAt(at, start, end);
        return true;
      }
      InsertMeans(was, at, DirtySpan(row, Span(start, end)));
      if len == rows.Length {
        return false;
      }
      Insert(at, DirtySpan(row, Span(start, end)));
      return true;
    }

    /** Widen the span at an index. */
    method MergeAt(at: nat, start: u16, end: u16)
      requires Valid() && at < len
      modifies rows
      ensures Valid()
      ensures old(rows[at]).row in MapOf(old(rows[..len]))
      ensures MapOf(rows[..len]) ==
              MapOf(old(rows[..len]))
                [old(rows[at]).row := Merge(MapOf(old(rows[..len]))[old(rows[at]).row], start, end)]
    {
      hide MapOf, Sorted;
      ghost var was := rows[..len];
      assert was[at] == rows[at];
      MapOfEntry(was, at);
      var merged := Merge(rows[at].span, start, end);
      UpdateMeans(was, at, merged);
      rows[at] := DirtySpan(rows[at].row, merged);
      assert rows[..len] == was[at := DirtySpan(was[at].row, merged)];
    }

    /** Open a gap and fill it. */
    method Insert(at: nat, x: DirtySpan)
      requires at <= len < rows.Length
      modifies this`len, rows
      ensures len == old(len) + 1 && rows[..len] == InsertAt(old(rows[..len]), at, x)
    {
      ghost var was := rows[..len];
      ShiftRight(at);
      rows[at] := x;
      len := len + 1;
      assert rows[..len] == InsertAt(was, at, x);
    }

    /** `copy_within(at..len, at + 1)`. */
    method ShiftRight(at: nat)
      requires at <= len < rows.Length
      modifies rows
      ensures forall k | 0 <= k < at :: rows[k] == old(rows[k])
      ensures forall k {:trigger rows[k]} | at < k <= len :: rows[k] == old(rows[k - 1])
    {
      var i := len;
      while i > at
        invariant at <= i <= len
        invariant forall k | 0 <= k < i :: rows[k] == old(rows[k])
        invariant forall k {:trigger rows[k]} | i < k <= len :: rows[k] == old(rows[k - 1])
      {
        rows[i] := rows[i - 1];
        i := i - 1;
      }
    }

    method MarkAll()
      requires Valid()
      modifies this
      ensures Valid() && Value() == AllDirty
    {
      len := 0;
      allDirty := true;
    }

    method MarkRangeOf(row: u16, start: u16, end: u16)
      requires Valid()
      modifies this, rows
      ensures Valid() && Value() == MarkRange(old(Value()), row, start, end)
    {
      if allDirty || start >= end {
        return;
      }
      MapOfSorted(rows[..len]);
      var ok := PushOrMerge(row, start, end);
      if !ok {
        MarkAll();
      }
    }

    method MarkRowOf(row: u16)
      requires Valid()
      modifies this, rows
      ensures Valid() && Value() == MarkRow(old(Value()), row)
    {
      MarkRangeOf(row, 0, U16_MAX);
    }

    /** `take`: hand out what was recorded, in row order, and start clean. */
    method Take() returns (d: DirtySpans)
      requires Valid()
      modifies this
      ensures Valid() && Value() == CLEAN
      ensures Meaning(d) == old(Value()) && (d.Rows? ==> Sorted(d.spans))
    {
      if allDirty {
        d := All;
        allDirty := false;
      } else {
        d := Rows(rows[..len]);
        len := 0;
      }
    }
  }

  // ---- what a sequence of marks amounts to ----

  datatype Mark = Everything | Range(row: u16, start: u16, end: u16)

  function Marked(d: Dirty, m: Mark): Dirty {
    match m
    case Everything => AllDirty
    case Range(row, start, end) => MarkRange(d, row, start, end)
  }

  /** The tracker after the marks, in order, since it was last drained. */
  function AfterMarks(ms: seq<Mark>): Dirty {
    if ms == [] then CLEAN else Marked(AfterMarks(ms[..|ms| - 1]), ms[|ms| - 1])
  }

  predicate Touches(m: Mark, row: u16) {
    m.Range? && m.row == row && m.start < m.end
  }

  /** The distinct rows with a non-empty mark. */
  function TouchedRows(ms: seq<Mark>): set<u16> {
    set i | 0 <= i < |ms| && ms[i].Range? && ms[i].start < ms[i].end :: ms[i].row
  }

  /** The smallest interval that covers every mark on the row: it contains them all and both its ends are attained. */
  ghost predicate IsHull(ms: seq<Mark>, row: u16, span: Span) {
    && (forall i | 0 <= i < |ms| && Touches(ms[i], row) :: span.start <= ms[i].start && ms[i].end <= span.end)
    && (exists i | 0 <= i < |ms| :: Touches(ms[i], row) && ms[i].start == span.start)
    && (exists i | 0 <= i < |ms| :: Touches(ms[i], row) && ms[i].end == span.end)
  }

  ghost predicate MustBeAll(ms: seq<Mark>) {
    Everything in ms || |TouchedRows(ms)| > MAX_TRACKED_DIRTY_ROWS
  }

  lemma {:induction false} TouchedGrows(ms: seq<Mark>, m: Mark)
    ensures TouchedRows(ms + [m]) == TouchedRows(ms) + (if m.Range? && m.start < m.end then {m.row} else {})
  {
    var all := ms + [m];
    assert forall i | 0 <= i < |ms| :: all[i] == ms[i];
    assert all[|ms|] == m;
    forall r | r in TouchedRows(ms) ensures r in TouchedRows(all) {
      var i :| 0 <= i < |ms| && ms[i].Range? && ms[i].start < ms[i].end && ms[i].row == r;
      assert all[i].row == r;
    }
  }

  lemma {:induction false} SubsetSize(a: set<u16>, b: set<u16>)
    requires a <= b
    ensures |a| <= |b|
  {
    assert b == a + (b - a);
  }

  lemma {:induction false} HullGrows(ms: seq<Mark>, m: Mark, row: u16, span: Span)
    requires IsHull(ms, row, span)
    ensures IsHull(ms + [m], row, if Touches(m, row) then Merge(span, m.start, m.end) else span)
  {
    var all := ms + [m];
    assert forall i | 0 <= i < |ms| :: all[i] == ms[i];
    assert all[|ms|] == m;
    var a :| 0 <= a < |ms| && Touches(ms[a], row) && ms[a].start == span.start;
    var b :| 0 <= b < |ms| && Touches(ms[b], row) && ms[b].end == span.end;
    var a' := if Touches(m, row) && m.start < span.start then |ms| else a;
    var b' := if Touches(m, row) && m.end > span.end then |ms| else b;
    assert Touches(all[a'], row) && Touches(all[b'], row);
  }

  lemma {:induction false} HullStarts(ms: seq<Mark>, m: Mark)
    requires m.Range? && m.start < m.end && m.row !in TouchedRows(ms)
    ensures IsHull(ms + [m], m.row, Span(m.start, m.end))
  {
    var all := ms + [m];
    assert all[|ms|] == m && Touches(all[|ms|], m.row);
    assert forall i | 0 <= i < |ms| && ms[i].Range? && ms[i].start < ms[i].end :: ms[i].row in TouchedRows(ms);
    assert forall i | 0 <= i < |ms| :: all[i] == ms[i];
  }

  ghost predicate Summarizes(ms: seq<Mark>, d: Dirty) {
    match d
    case AllDirty => MustBeAll(ms)
    case RowsDirty(spans) =>
      !MustBeAll(ms) && spans.Keys == TouchedRows(ms) && forall r | r in spans :: IsHull(ms, r, spans[r])
  }

  lemma {:induction false} SummaryStep(ms: seq<Mark>, m: Mark, d: Dirty)
    requires Summarizes(ms, d)
    ensures Summarizes(ms + [m], Marked(d, m))
  {
    hide IsHull, TouchedRows, Touches;
    var all := ms + [m];
    TouchedGrows(ms, m);
    SubsetSize(TouchedRows(ms), TouchedRows(all));
    assert Everything in all <==> Everything in ms || m == Everything;
    if d.RowsDirty? && m.Range? {
      assert |d.spans| == |TouchedRows(ms)|;
      var d' := Marked(d, m);
      if d'.RowsDirty? {
        forall r | r in d'.spans ensures IsHull(all, r, d'.spans[r]) {
          SummaryRow(ms, m, d, r);
        }
      }
    }
  }

  lemma {:induction false} SummaryRow(ms: seq<Mark>, m: Mark, d: Dirty, r: u16)
    requires Summarizes(ms, d) && d.RowsDirty? && m.Range? && Marked(d, m).RowsDirty? && r in Marked(d, m).spans
    ensures IsHull(ms + [m], r, Marked(d, m).spans[r])
  {
    hide IsHull, TouchedRows;
    if r in d.spans {
      HullGrows(ms, m, r, d.spans[r]);
    } else {
      HullStarts(ms, m);
    }
  }

  /**
    * After any marks the tracker holds, for each touched row, the smallest interval covering them; it says "everything"
    * exactly when `mark_all` ran or more than 64 distinct rows were touched.
    */
  lemma {:induction false} TrackerKeepsHulls(ms: seq<Mark>)
    ensures Summarizes(ms, AfterMarks(ms))
    decreases |ms|
  {
    if ms == [] {
      assert TouchedRows(ms) == {};
    } else {
      var front, last := ms[..|ms| - 1], ms[|ms| - 1];
      TrackerKeepsHulls(front);
      SummaryStep(front, last, AfterMarks(front));
      assert front + [last] == ms;
    }
  }
}
