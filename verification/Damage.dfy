/** What the damage tracker means (src/damage.rs): either everything, or one column interval per marked row. */
module Damage {
  import opened Basics

  /** More distinct rows than this fall back to "everything". */
  const MAX_TRACKED_DIRTY_ROWS: nat := 64

  datatype Span = Span(start: u16, end: u16)

  datatype Dirty = AllDirty | RowsDirty(spans: map<u16, Span>)

  const CLEAN: Dirty := RowsDirty(map[])

  function Merge(span: Span, start: u16, end: u16): Span {
    Span(Min(span.start, start), Max(span.end, end))
  }

  function MarkRange(d: Dirty, row: u16, start: u16, end: u16): Dirty {
    match d
    case AllDirty => d
    case RowsDirty(spans) =>
      if start >= end then d
      else if row in spans then RowsDirty(spans[row := Merge(spans[row], start, end)])
      else if |spans| >= MAX_TRACKED_DIRTY_ROWS then AllDirty
      else RowsDirty(spans[row := Span(start, end)])
  }

  function MarkRow(d: Dirty, row: u16): Dirty {
    MarkRange(d, row, 0, U16_MAX)
  }

  /** Mark `top..=bottom`, one row at a time. */
  function MarkRows(d: Dirty, top: u16, bottom: u16): Dirty
    decreases bottom + 1 - top
  {
    if top > bottom then d
    else if top == bottom then MarkRow(d, top)
    else MarkRows(MarkRow(d, top), top + 1, bottom)
  }

  /** Whether a drained set covers the cell at `(row, col)`. */
  predicate Covers(d: Dirty, row: u16, col: u16) {
    match d
    case AllDirty => true
    case RowsDirty(spans) => row in spans && spans[row].start <= col < spans[row].end
  }
}
