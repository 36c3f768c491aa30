# termpane: a verified model

termpane is a terminal screen model. A grid of cells is changed by parsed VT events, printed back as a byte stream that
must rebuild the same state, tracked for damage, read through scrollback views, and pumped by a threaded session
worker. This project models those parts in Dafny and proves what they promise.

`dafny verify dfyconfig.toml` checks everything.

## How the model is laid out

- `Basics`, `Cells`, `Sgr`, `Rows`, `Damage`, `Grid` (module `GridModel`): the values and the state machine. `Step`
  takes one parsed event, `Run` a whole sequence of them, resizes included. Functions on `u16` values are checked not to
  overflow and indices not to leave their range, so the totality of `Step` is part of what is proved.
- `RowStore`, `DamageGrid` (module `DamageGridObject`), the in-place methods of `Rows`, and `SerializeLoops`: the same
  operations in the source's imperative form. `DamageGrid.PerformAll` ties the mutable object to `Run`, so every
  theorem about runs is a theorem about the object.
- `Invariant`, `HistoryRows`, `CursorMoves`, `DeferredWrap`, `Margins`, `Scrolling`, `Erasing`, `ErasePolicyProof`,
  `AltScreen`, `Resizing`: theorems about every event and every run.
- `Clearing`, `Provenance`, `SoftRows`, `Typing`, `Editing`, `ScrollOps`, `Settings`, `SgrForms`, `Frames`: what the
  single events do, stated on `Step` and on the state before, without the functions that compute it: what a clear saves,
  which rows are soft, what an in-row edit moves where, what is recorded, and what each event leaves alone.
- `Serialize`: the writers, with events for output tokens. `Replay`, `Clusters`, `Painting`, `FullPaintProof`,
  `CursorProof`, `ModesProof`, `RoundTrip`, `DiffProof`: a simulation between the writer's tracked cursor, pen and row
  and the grid that replays its output, ending in the round trips. `NormalForm` shows what the writers cannot see,
  `QuietDiff` what they leave unsaid, and `ExactTrip` exactly when the round trips succeed. `Decimal` covers the digits
  of a parameter.
- `MarkedRows`, `DamageMirror`, `Marks`, `DirtyTracker` (module `DirtyTracking`), `Patches`, `Views`: damage and views.
- `Utf8` (modules `Utf8`, `Chunking`), `SeqTracker` (modules `SeqTracker`, `ByteInput`, `SyncFrames`), `SeqGrammar` and
  `GridStream`: bytes, chunks, the parser position against a grammar of sequences, and the grid behind them.
- `SharedChild`, `SessionWorker` (module `WorkerModel`), `SessionProtocol`, `SessionVerdict`: the session's threads as
  interleaved steps, and which outcome a run publishes.

Character and cluster widths are uninterpreted tables under the laws of `Cells.LawfulTables` (src/width.rs:148-156,
src/width.rs:198-204): a character is 0, 1 or 2 columns wide, the zero-width joiner is 0, a space is 1, a cluster with a
positive-width base is 1 or 2. Diffs also use `Cells.NarrowBaseStaysWide`: a cluster whose base is narrow does not
narrow again after it has widened. Grids have at least one row and between 1 and 65528 columns; `Invariant.TabFitsIff`
shows that the column bound is exactly what the tab arithmetic at src/grid/perform.rs:43 needs in 16 bits.

Five claims one might expect are not true of the code, and the model says exactly when they hold:

- A continuation need not carry its lead's attributes after a DCH of two or more issued on a continuation cell
  (src/grid/write.rs:96-97 accepts the pair without comparing attributes): `Rows.DeleteMixHappens`,
  `Rows.DeleteKeepsAttrsIff`, `Invariant.StepKeeps`.
- Such a pair, while it shows, does not survive serialization, and a diff does not mend it: `ExactTrip.GluedPairIsLost`,
  `ExactTrip.DiffMissesGlue`, `ExactTrip.FullPaintRoundTripIff`, `ExactTrip.FormattedThenDiff`.
- Several edits change cells outside the columns they mark: `DamageMirror.EraseLosesDamage`,
  `DamageMirror.StepMirrorsIff`.
- Growing a screen and shrinking it back can lose a glyph: `Resizing.ResizeLosesGlyph`, `Resizing.GrowThenShrinkIff`.
- The recorded scroll operations do not always account for the scrollback under the discarding policy, contrary to the
  comment at src/grid/tests.rs:679-681: a DL at the top row, or a scroll of the alternate screen or of a one-row grid, is
  recorded and sends nothing there. `ScrollOps.DeleteLineGoesAstray`, `ScrollOps.RecordCountsScrollbackIff`.

## Model

| member | source | states |
|---|---|---|
| `RoundTrip.FullPaintRoundTrip` | src/grid/serialize.rs:995-1059 | For every well-formed grid whose visible pairs share attributes, running `state_formatted` through a fresh grid of the same size gives a grid `state_eq` to it: phantom cursors, ZWJ-final neighbours, margin leads and coloured erase runs included. |
| `ExactTrip.FullPaintRoundTripIff` | src/grid/serialize.rs:995-1059 | For every well-formed grid the round trip succeeds if and only if no visible continuation differs in attributes from its lead. |
| `ExactTrip.FormattedShowsNorm` | src/grid/serialize.rs:995-1005 | For every well-formed grid, glued pairs or not, the replay of its full stream is `state_eq` to it with each visible pair sharing its lead's attributes. |
| `ExactTrip.ReachableStatesRoundTrip` | src/grid/serialize.rs:995-1005 | The same equivalence for the end state of every event sequence from a fresh grid; a run that never glues two glyphs meets the condition. |
| `ExactTrip.GluedPairIsLost` | src/grid/serialize.rs:460-567 | Two wide glyphs, the second bold, then a DCH of two on the first one's second half: the round trip gives another state. |
| `RoundTrip.FullPaintEffect` | src/grid/serialize.rs:770-811 | The clear-and-paint stream turns any canvas of the right size, whatever it showed, into the target's picture, cursor and pen. |
| `RoundTrip.RunContentsFormatted` | src/grid/serialize.rs:756-811 | `contents_formatted` on a replay with the right modes completes the whole state, with autowrap forced on for the painting and restored after. |
| `DiffProof.DiffRoundTrip` | src/grid/serialize.rs:1007-1059 | For all well-formed states of one size whose visible pairs share attributes, running `state_diff(prev)` on any whole-region grid `state_eq` to `prev` gives a grid `state_eq` to the target, on either screen. |
| `ExactTrip.DiffRoundTripIff` | src/grid/serialize.rs:1007-1059 | Between any two well-formed states of one size, on any replay that shows the earlier one as its streams do, the diff succeeds if and only if the target shows no glued pair. |
| `ExactTrip.DiffMissesGlue` | src/grid/serialize.rs:576-668 | On a grid that glued a pair itself, the diff to the state with that pair mended rewrites nothing. |
| `ExactTrip.FollowerKeepsUp` | src/grid/serialize.rs:995-1019 | A grid that receives one full state and then any number of diffs, of any well-formed states, is `state_eq` to the last one if and only if that one shows no glued pair. |
| `ExactTrip.FormattedThenDiff` | src/grid/serialize.rs:1007-1011 | For all well-formed states of one size, the stream of the earlier one and then the diff rebuild the later one if and only if it shows no glued pair. |
| `NormalForm.FormattedIgnoresGlue` | src/grid/serialize.rs:770-811 | `state_formatted` cannot tell a state from the one with its visible pairs mended. |
| `NormalForm.DiffIgnoresGlue` | src/grid/serialize.rs:813-877 | Nor can `state_diff`, of either state. |
| `QuietDiff.SameStatesDiffQuietly` | src/grid/serialize.rs:813-877 | The diff between two states that show the same is nothing but the autowrap settings that frame every diff. |
| `QuietDiff.UnchangedRowIsSilent` | src/grid/serialize.rs:576-668 | A row that neither changed nor became a continuation is not written. |
| `QuietDiff.OneChangeOneGlyph` | src/grid/serialize.rs:576-668 | A row in which one glyph changed costs one move, one pen change and that glyph's characters. |
| `QuietDiff.EqualStatesFormatAlike` | src/grid/serialize.rs:1021-1059 | Equal states whose rows continue each other alike have the same full stream. |
| `DiffProof.DiffPaintEffect` | src/grid/serialize.rs:813-877 | The row diffs repaint every cell whose look differs or which an earlier stroke disturbed. |
| `DiffProof.DiffRowEffect` | src/grid/serialize.rs:576-668 | One diffed row ends looking like the target row and leaves the other rows alone, including after a cluster that prints wide and then narrows. |
| `DiffProof.StampDiffSettles` | src/grid/serialize.rs:417-424 | After a cell is written over a partly diffed row, only the cells the writer will repaint can still differ from both states. |
| `FullPaintProof.FormatRowEffect` | src/grid/serialize.rs:460-567 | One formatted row turns a cleared row into the target row, with the tracked cursor and pen equal to the replay's. |
| `FullPaintProof.FormatFlush` | src/grid/serialize.rs:429-450 | Flushing an erase run paints the run's blanks with their background and settles exactly those columns. |
| `Painting.WriteEffect` | src/grid/serialize.rs:355-424 | The move, pen change and text written for one cell put that cluster at that column, with no join to its left or through a pending wrap. |
| `CursorProof.RunCursorRestore` | src/grid/serialize.rs:682-738 | The cursor-restoring tail parks or places the cursor exactly, over filled and over blank last cells, and changes no cell's look. |
| `ModesProof.RunInputFormatted` | src/grid/serialize.rs:879-903 | The mode prefix of a full state configures keys, mouse, screen, visibility and style. |
| `ModesProof.RunInputDiff` | src/grid/serialize.rs:905-950 | The mode prefix of a diff does so from any earlier configuration, through the mouse-mode numbers. |
| `Clusters.PrintCluster` | src/grid.rs:1324-1419 | Printing a cluster's characters one by one leaves exactly that cluster with its width, and the cells it may disturb to the right are named. |
| `Sgr.SgrRoundTrip` | src/grid/serialize.rs:158-278 | For every pair of attribute records, applying the parameters written for `target` against `prev` to `prev` gives `target`. |
| `Sgr.RunSgr` | src/grid.rs:1847-1926 | The index loop of `apply_sgr` computes the recursive meaning of a parameter list. |
| `Sgr.ParseColorAt` | src/grid/parse.rs:46-96 | The index-advancing colour parser consumes exactly the parameters of the colour it returns, in the colon and the semicolon form. |
| `SgrForms.ColonIndexed` | src/grid/parse.rs:81-84 | The colon form of an indexed colour means its semicolon form. |
| `SgrForms.ColonRgb` | src/grid/parse.rs:84-95 | So does the colon form of an RGB colour without a colour space. |
| `SgrForms.ColonRgbSpace` | src/grid/parse.rs:84-95 | And with an empty colour space. |
| `SgrForms.NamedSpaceIff` | src/grid/parse.rs:84-95 | With a non-zero colour space the colour read is the one named if and only if all four saturated values are equal. |
| `SgrForms.ColonTooShort` | src/grid/parse.rs:80-96 | Too few values or another kind leave the pen alone. |
| `SgrForms.SemicolonTooShort` | src/grid/parse.rs:46-78 | A semicolon form cut short sets no colour, and the rest is read as codes. |
| `SgrForms.NamedColours` | src/grid.rs:1847-1926 | The sixteen named colours are the first sixteen indices. |
| `SgrForms.Underlines` | src/grid/parse.rs:31-42 | The spellings of the underline styles, unknown ones included. |
| `SgrForms.Ignores` | src/grid.rs:1847-1926 | Unknown codes and stray subparameters are ignored. |
| `Sgr.ApplyIntensity` | src/grid/serialize.rs:158-278 | Bold and dim survive their shared reset 22. |
| `Sgr.ApplyBlink` | src/grid/serialize.rs:158-278 | Slow and rapid blink survive their shared reset 25. |
| `Decimal.WriteU16` | src/grid/serialize.rs:102-115 | The digits appended denote the number, in canonical form, without running off the five-byte buffer. |
| `Decimal.CanonicalIsUnique` | src/grid/serialize.rs:102-115 | A canonical digit string is determined by its value. |
| `SerializeLoops.Writer.FlushEraseRun` | src/grid/serialize.rs:429-450 | The imperative flush is the specified flush. |
| `SerializeLoops.Writer.WriteContentCell` | src/grid/serialize.rs:355-385 | Move, pen switch, text and tracked position for one cell, as specified. |
| `SerializeLoops.Writer.WriteRowFormatted` | src/grid/serialize.rs:460-567 | The cell loop with its pending erase run and wide skip computes the specified row output, position and pen. |
| `SerializeLoops.Writer.WriteRowDiff` | src/grid/serialize.rs:576-668 | The same for the diff loop with its repaint flag. |
| `SerializeLoops.WriteFullPaint` | src/grid/serialize.rs:770-811 | The row loop and the cursor tail compute the specified full paint. |
| `SerializeLoops.WriteDiffPaint` | src/grid/serialize.rs:813-877 | The row loop and the cursor tail compute the specified diff, with a full paint after a size or screen change. |
| `Invariant.RunKeeps` | src/grid.rs:1204-1706 | Every event sequence, resizes interleaved, keeps dimensions, pairing, cluster and width facts, cursor, region and the scrollback limit; without a gluing DCH it keeps the attribute clause too. |
| `Invariant.StepKeeps` | src/grid/perform.rs:64-344 | One event keeps the invariant, and keeps "continuation carries its lead's attributes" if and only if it does not glue two glyphs. |
| `Invariant.DeleteCharsAttrsIff` | src/grid/perform.rs:241-258 | DCH on the grid keeps the attribute clause exactly when it does not glue. |
| `Invariant.ResizeKeeps` | src/grid.rs:899-923 | A resize to any rows and up to 65528 columns, zeros included, keeps the invariant. |
| `HistoryRows.RunKeepsHistory` | src/grid.rs:1421-1534 | Every run keeps every row held in scrollback well formed, whether it was scrolled out or saved by a clear. |
| `Invariant.TabFitsIff` | src/grid/perform.rs:41-45 | The tab arithmetic fits 16 bits exactly below column 65528. |
| `Rows.DeleteKeepsAttrsIff` | src/grid/write.rs:93-104 | Deleting cells keeps lead and continuation attributes equal if and only if no lead is glued to a foreign continuation of other attributes. |
| `Rows.DeleteMixNeedsContinuation` | src/grid/perform.rs:241-258 | Gluing needs a count of two or more issued on a continuation cell. |
| `Rows.DeleteMixHappens` | src/grid/write.rs:93-104 | Two adjacent wide glyphs of different attributes on which it happens. |
| `Rows.RepairScanIsRepaired` | src/grid/write.rs:93-104 | The left-to-right repair equals blanking all orphans at once: no repair creates a new orphan. |
| `Rows.PutGlyphOk` | src/grid.rs:1250-1304 | Writing a glyph keeps a row well formed, whichever wide glyphs it cuts. |
| `Rows.SetCellWidthOk` | src/grid/write.rs:21-47 | Changing a cluster's width keeps a row well formed. |
| `Rows.EraseCellsOk` | src/grid/write.rs:75-90 | Erasing a range keeps a row well formed. |
| `Rows.InsertCellsOk` | src/grid/perform.rs:92-114 | ICH keeps a row well formed, attributes included. |
| `Rows.DeleteCellsOk` | src/grid/perform.rs:241-258 | DCH keeps a row well formed. |
| `Rows.ResizeRowSpec` | src/grid.rs:447-459 | A width change, cell by cell, and that it keeps the row well formed. |
| `Rows.SetCellWidthInPlace` | src/grid/write.rs:21-47 | The slice edit equals its specification. |
| `Rows.EraseInPlace` | src/grid/write.rs:75-90 | The slice edit blanks the range and the partners its boundary splits. |
| `Rows.RepairInPlace` | src/grid/write.rs:93-104 | The slice loop equals the specified scan. |
| `Rows.InsertInPlace` | src/grid/perform.rs:92-114 | The backward shift, fill and repair equal the specified insertion. |
| `Rows.DeleteInPlace` | src/grid/perform.rs:241-258 | The forward shift, tail fill and repair equal the specified deletion. |
| `Editing.InsertExact` | src/grid/perform.rs:92-114 | ICH on the event, for every count and cursor column, each cell of the row in terms of the old row with the halves of cut glyphs; nothing else changes but damage. |
| `Editing.DeleteExact` | src/grid/perform.rs:241-258 | The same for DCH, whose last columns are blanked wherever the cursor is. |
| `Editing.EraseExact` | src/grid/perform.rs:288-300 | The same for ECH. |
| `Editing.DeleteUndoesInsertIff` | src/grid/perform.rs:92-114 | A DCH undoes an ICH of the same count on the columns that did not fall off if and only if no glyph is cut at the cursor or where the blanks begin. |
| `DeferredWrap.PrintableNeverLost` | src/grid.rs:1204-1317 | In every well-formed state a positive-width printable joins an open cluster or gets a cell of its own at a stated row and column; only a wide glyph with fewer than two columns left and autowrap off is suppressed, and then nothing changes. |
| `DeferredWrap.RunNeverLosesPrintables` | src/grid.rs:1217-1243 | After every run the wrap flag is set exactly in the phantom column, so with autowrap on the next printable is never lost. |
| `Provenance.WrapGoesDown` | src/grid.rs:1217-1243 | A printable that takes a deferred wrap goes down one row softly: every row, flag, the scrollback, and the glyph in the first column with the halves it cuts; the other screen stays. |
| `Provenance.PrintStays` | src/grid.rs:1204-1317 | A printable that takes none moves no row and no flag: it extends the cluster before the cursor cell by cell, lands in a cell of its own cell by cell, or is suppressed. |
| `Provenance.ControlGoesDown` | src/grid/perform.rs:16-54 | LF, VT and FF go down one row, the row entered being hard, with scrolled rows taking their flags along into scrollback; no other control moves a row. |
| `Provenance.WrappedRowIsSoftIff` | src/grid.rs:1541-1558 | The row a deferred wrap enters is soft, except that a one-row grid keeps the flag it had. |
| `Provenance.AbsorbedIff` | src/grid.rs:1324-1350 | When a character joins the cluster before the cursor, in terms of widths, the last print and a trailing joiner. |
| `SoftRows.OnlyWrapsSoften` | src/grid.rs:1541-1558 | Over any run in which no printable takes a deferred wrap, hard rows of both screens and of the scrollback stay hard. |
| `SoftRows.RunProvenance` | src/grid.rs:1541-1558 | After any run, wraps enter rows softly, line feeds hard, and no other text event touches a flag. |
| `Typing.TextFillsRows` | src/grid.rs:1217-1317 | Text of one-column characters typed into a fresh grid of any size it fits: cell (r, c) holds character r * cols + c, exactly the rows a wrap entered are soft, and the cursor stands behind the text. |
| `CursorMoves.MoveLandsClamped` | src/grid/perform.rs:117-178 | Every cursor motion, for every count, lands on its unbounded target clamped to the screen, cancels the deferred wrap and changes nothing else. |
| `CursorMoves.BackUndoesForwardIff` | src/grid/perform.rs:117-142 | CUB undoes CUF, and CUU undoes CUD, exactly from the first position or when nothing was clamped. |
| `CursorMoves.TabLandsOnStop` | src/grid/perform.rs:41-45 | HT lands on the next multiple of eight, or the last column before it. |
| `Margins.MarginsConfine` | src/grid/perform.rs:326-343 | After DECSTBM names two or more rows, any run of line feeds, scrolls, line edits and cursor motion leaves the margins and every cell outside them alone, and feeds scrollback only when they start at the top row. |
| `CursorMoves.RestoreUndoesMoves` | src/grid.rs:1588-1598 | DECRC brings back the cursor DECSC saved, deferred wrap included, and changes nothing else. |
| `CursorMoves.RestoreClamps` | src/grid.rs:1588-1598 | DECRC on any screen, resized since or not: row and column clamped, parked exactly when the saved column is beyond the last. |
| `Settings.FullResetIsFresh` | src/grid/perform.rs:544-560 | RIS gives a fresh grid of the same size, but for scrollback, saved cursor, cursor style, keyboard stack and undrained records. |
| `Settings.SoftResetRestoresDefaults` | src/grid/perform.rs:455-466 | DECSTR restores pen, margins, autowrap, visibility and keys, sends a later DECRC home, and unparks exactly when autowrap was off. |
| `Settings.MarginsAreSet` | src/grid/perform.rs:326-343 | DECSTBM for any parameters in one-based rows, zero, inverted and too large ones included, and the cursor at home. |
| `Settings.QueryReadsBack` | src/grid.rs:1098-1125 | DECRQM after DECSET or DECRST, for any two modes: what was written is read back, its group follows, every other answer stays, unknown modes change nothing. |
| `Settings.ModeListInOrder` | src/grid/perform.rs:312-322 | A list of modes is the modes one by one. |
| `Settings.WritingAnnounces` | src/grid.rs:1952-2010 | Which mode writes are announced to the host, and one keyboard reset per level dropped with the alternate screen. |
| `Settings.ReportedPositionReturns` | src/grid/perform.rs:403-426 | The position DSR 6 reports is on the screen and a CUP to it returns to where the cursor was. |
| `Settings.PopUndoesPushIff` | src/grid/perform.rs:357-376 | A keyboard pop undoes a push if and only if the stack had room; pops stop at the bottom; both are forwarded. |
| `Frames.StepTouchesOnly` | src/grid/perform.rs:12-562 | The fields each event may touch, over every event. |
| `Frames.ScreenSwitchExact` | src/grid.rs:1990-2010 | Modes 47, 1047 and 1049, field by field. |
| `Frames.LinkRides` | src/grid.rs:1250-1304 | A glyph carries the hyperlink and pen in force when it was printed. |
| `Erasing.EraseDisplayExact` | src/grid.rs:1650-1706 | ED blanks exactly the cells its mode reaches in reading order, and the half glyph left at the boundary, with the pen's background; wrap flags and the other screen stay and mode 3 empties the scrollback. |
| `Erasing.EraseLineExact` | src/grid.rs:1620-1648 | EL does so on the cursor row only. |
| `Erasing.PreserveExact` | src/grid.rs:1478-1534 | A clear appends the filled block, hard-wrapped, under the limit when the policy, the screen and a change since the last one ask for it, and an immediate second clear appends nothing. |
| `Clearing.ClearSaves` | src/grid.rs:1478-1534 | After ED in any mode: a clear of the whole screen, or from home, that is asked to save appends the rows from the first to the last filled one, all hard, under the limit, unless they equal the last block saved; ED 3 empties the scrollback and rewinds the view; every other ED leaves the history alone. |
| `Clearing.PrintIsNews` | src/grid.rs:1204-1215 | Every printable, even one that is dropped, and every scroll makes the next clear save again. |
| `Clearing.PrintedThenCleared` | src/grid.rs:1683-1693 | A character printed on a fresh grid with scrollback is the one row held there after ED 2. |
| `Erasing.FilledBlockSpans` | src/grid.rs:1495-1509 | The block runs from a filled row to a filled row and holds every filled row. |
| `Scrolling.ScrollUpExact` | src/grid.rs:1433-1469 | For every count SU leaves what the unclamped one-row loop leaves; scrollback is the last `limit` rows of the old one followed by the evicted rows. |
| `Scrolling.ScrollDownExact` | src/grid/perform.rs:265-286 | SD equals the one-row loop for every count and leaves scrollback alone. |
| `Scrolling.InsertDeleteLinesExact` | src/grid/perform.rs:187-239 | IL and DL equal the one-row loops from the cursor to the bottom margin, and do nothing outside the margins. |
| `Scrolling.ReverseIndexExact` | src/grid/perform.rs:502-525 | RI shifts one row down at the top margin and otherwise moves the cursor. |
| `Scrolling.LoopUpIsShift` | src/grid.rs:1447-1465 | The upward loop of any length is the shift by the clamped count with blank rows filled in. |
| `Scrolling.LoopDownIsShift` | src/grid/perform.rs:187-211 | The same for the downward loop. |
| `Scrolling.PushOneKeepsLast` | src/grid.rs:1421-1426 | Pushing rows one by one keeps the last `limit` rows of everything, in order. |
| `ScrollOps.StepRecords` | src/grid.rs:1433-1446 | Which scroll operation each event records, with region and clamped count, and that no other event records any. |
| `ScrollOps.RecordReplaysRows` | src/grid.rs:41-63 | On two or more rows, over any run of line feeds, scrolls, line edits and cursor motion, replaying the recorded operations on the old rows gives the new ones. |
| `ScrollOps.OneRowReplaysIff` | src/grid.rs:1447-1451 | On a one-row grid the record is true exactly when the row was blank. |
| `ScrollOps.RecordCountsScrollbackIff` | src/grid/tests.rs:677-701 | Under the discarding policy, over any run without ED 3 below the limit, the scrollback grows by at most the rows the record sends off the top, and by exactly that many if and only if none went astray. |
| `ScrollOps.DeleteLineGoesAstray` | src/grid/perform.rs:212-240 | A DL at home on a fresh grid records such a row and none arrives. |
| `ErasePolicyProof.PolicyNonInterference` | src/grid.rs:1478-1534 | Grids that differ only in erase policy, fed any same events, keep equal screens, cursor, modes, replies and damage, and the discarding one never holds more scrollback. |
| `ErasePolicyProof.PolicyFromFresh` | src/grid.rs:1650-1706 | The same for two fresh grids. |
| `AltScreen.BracketRestores` | src/grid.rs:1990-2010 | Any run between `?1049h` and `?1049l` without cursor save, DECSTR, screen switch, RIS or resize leaves primary cells and wraps unchanged, restores the cursor with its deferred wrap, and leaves scrollback as it was, or empty if an ED 3 was issued. |
| `AltScreen.RunInside` | src/grid.rs:1650-1706 | What every run on the alternate screen cannot reach. |
| `Resizing.ResizeKeepsRectangle` | src/grid.rs:899-923 | Both screens after a resize to up to 65528 columns, cell by cell; cursor, region and scrollback; and well-formedness again. |
| `Resizing.ResizeScreenSpec` | src/grid.rs:433-471 | One screen resized to any 16-bit dimensions, cell by cell. |
| `Resizing.GrowThenShrinkIff` | src/grid.rs:433-471 | Growing and shrinking back is the identity exactly when no column was added or no row ends in a wide lead. |
| `Resizing.ResizeLosesGlyph` | src/grid.rs:447-459 | A wide glyph printed on a one-cell grid is lost by growing one column and shrinking back. |
| `DamageGridObject.DamageGrid.constructor` | src/grid.rs:562-617 | A new grid is the fresh state and well formed. |
| `DamageGridObject.DamageGrid.PerformAll` | src/grid/perform.rs:12-562 | The mutable object after any events is the model's run of them. |
| `DamageGridObject.DamageGrid.Perform` | src/grid/perform.rs:12-562 | One event on the object is one step of the model. |
| `DamageGridObject.DamageGrid.WriteCharAtCursor` | src/grid.rs:1204-1317 | Printing on the fields is the specified print. |
| `DamageGridObject.DamageGrid.AppendToPreviousCluster` | src/grid.rs:1324-1419 | The join on the fields, and the answer whether the character was absorbed. |
| `DamageGridObject.DamageGrid.ScrollRegionUp` | src/grid.rs:1433-1469 | The scroll loop on the fields is the clamped shift with eviction to scrollback. |
| `DamageGridObject.DamageGrid.NewlineAction` | src/grid.rs:1541-1549 | Scroll at the bottom margin, else move down and record the wrap. |
| `DamageGridObject.DamageGrid.PreserveVisibleRows` | src/grid.rs:1478-1534 | The preserve-on-clear rule with its exact deduplication. |
| `DamageGridObject.DamageGrid.EraseLineNow` | src/grid.rs:1620-1648 | EL on the fields. |
| `DamageGridObject.DamageGrid.EraseDisplayNow` | src/grid.rs:1650-1706 | ED on the fields, with the row loops. |
| `DamageGridObject.DamageGrid.RestoreCursor` | src/grid.rs:1588-1598 | Restoring the saved cursor re-arms a saved phantom column. |
| `DamageGridObject.DamageGrid.ApplyDecModes` | src/grid.rs:1928-2071 | Every mode of a set or reset list, in order. |
| `DamageGridObject.DamageGrid.SetSizeTo` | src/grid.rs:899-923 | Resizing on the fields. |
| `DamageGridObject.DamageGrid.SoftResetNow` | src/grid/perform.rs:455-466 | DECSTR on the fields. |
| `DamageGridObject.DamageGrid.FullResetNow` | src/grid/perform.rs:544-560 | RIS on the fields. |
| `DamageGridObject.DamageGrid.ExecuteByte` | src/grid/perform.rs:16-54 | C0 controls on the fields. |
| `RowStore.ScrollRegion` | src/grid.rs:1447-1465 | The row loop shifts the region and hands the evicted rows to scrollback in order. |
| `RowStore.ShiftRegionDown` | src/grid/perform.rs:187-211 | The remove-and-insert loop is the downward shift. |
| `RowStore.PushBlock` | src/grid.rs:1526-1532 | Pushing a block row by row keeps the last `limit` rows. |
| `RowStore.PositionFilled` | src/grid.rs:1495-1502 | The first row with contents. |
| `RowStore.RpositionFilled` | src/grid.rs:1502-1509 | The last row with contents. |
| `RowStore.ResizeStore` | src/grid.rs:433-471 | The loops of `RowStore::resize` compute the specified resize. |
| `RowStore.EditPut` | src/grid.rs:1250-1304 | The cell writes of a print and the columns they dirty. |
| `MarkedRows.PutWithin` | src/grid.rs:1250-1304 | A new-cell print changes nothing outside its marked columns. |
| `MarkedRows.JoinWithinIff` | src/grid/write.rs:21-47 | A join stays within its mark if and only if it does not widen over another lead. |
| `MarkedRows.EraseWithinIff` | src/grid/write.rs:75-90 | An erase stays within its range if and only if no boundary splits a wide pair. |
| `MarkedRows.InsertWithinIff` | src/grid/perform.rs:92-114 | ICH stays right of the cursor if and only if it is not on a continuation. |
| `MarkedRows.DeleteWithinIff` | src/grid/perform.rs:241-258 | DCH stays right of the cursor if and only if it cuts no lead there and its tail fill blanks nothing to the left. |
| `DamageMirror.StepMirrorsIff` | src/grid.rs:1620-1706 | From a drained tracker, an event's marks cover every cell it changes if and only if it does not reach past them; such an event, whatever was marked before, only adds damage and leaves uncovered cells unchanged. |
| `DamageMirror.EraseLosesDamage` | src/grid.rs:1630-1634 | A wide glyph is printed, the cursor moves onto its second half, damage is drained: EL 0 then changes an unmarked cell. |
| `DamageMirror.RunMirrors` | src/grid.rs:1433-1469 | Over every run of such events, uncovered cells are unchanged. |
| `Marks.StepMarksExactly` | src/damage.rs:48-86 | From a drained tracker, the cells each event marks, and that it marks no others. |
| `Patches.MirrorRun` | src/snapshot.rs:328-341 | A consumer that held the old screen and copies only the changed spans of the drained damage holds the new screen. |
| `Patches.ChangedSpans` | src/snapshot.rs:399-424 | The span iterator, run to its end, yields the specified patches. |
| `Patches.ChangedCellCount` | src/snapshot.rs:294-301 | The reported count is the number of cells the patches carry plus those of tracked rows below the screen. |
| `DirtyTracking.TrackerKeepsHulls` | src/damage.rs:58-86 | After any marks since the last drain, each touched row has the smallest interval covering its marks, and "all" is reported exactly after `mark_all` or more than 64 distinct rows. |
| `DirtyTracking.DirtyTracker.MarkRangeOf` | src/damage.rs:58-69 | Marking a range on the array is marking it on the map, and rows stay strictly sorted. |
| `DirtyTracking.DirtyTracker.MarkRowOf` | src/damage.rs:48-50 | Marking a row on the array is marking it on the map. |
| `DirtyTracking.DirtyTracker.PushOrMerge` | src/damage.rs:146-167 | Insert or widen by binary search; it fails exactly for a new row in a full list. |
| `DirtyTracking.DirtyTracker.Search` | src/damage.rs:146-161 | The found index, or the insertion point that keeps the order. |
| `DirtyTracking.DirtyTracker.Take` | src/damage.rs:78-86 | The drained spans mean what was recorded, in row order, and the tracker is clean. |
| `DirtyTracking.MapOfSorted` | src/damage.rs:138-144 | A strictly sorted span list stands for a map with exactly its rows. |
| `Views.DumpScrollbackView` | src/grid.rs:782-848 | The owned dump is the window of scrollback followed by screen, `min(offset, len)` rows back. |
| `Views.ViewReadsWindow` | src/grid.rs:857-896 | The borrowed view reads that window at every offset, height and position, cut at the grid's width. |
| `Views.ContentRowReadsWindow` | src/grid.rs:1164-1193 | The content-row lookup reads it at full height, and live rows below the viewport. |
| `Views.ScrollbackRowsAt` | src/grid.rs:782-795 | The rows taken are the slice starting `min(offset, len)` before the end. |
| `Utf8.ValidUpToIsLongest` | src/grid/write.rs:130-134 | The valid prefix is the longest one in the grammar of section 4 of RFC 3629, and is everything exactly for well-formed input. |
| `Chunking.HeldCarries` | src/grid/write.rs:117-135 | What is held back after more bytes depends on earlier bytes only through what they held back. |
| `Chunking.ChunkIndependence` | src/grid.rs:625-648 | For every split of a byte stream the parser has seen the same prefix and the same tail is pending. |
| `Chunking.TextHoldsLittle` | src/grid/write.rs:117-135 | On a prefix of well-formed text at most three bytes wait, and none at its end. |
| `Chunking.TextReleasesWholeCharacters` | src/grid/write.rs:117-135 | On a prefix of well-formed text the parser is handed exactly the whole characters. |
| `Chunking.OnlyARunWaits` | src/grid/write.rs:117-135 | On any bytes, what waits is what follows the whole characters of the trailing non-ASCII run. |
| `ByteInput.InputStage.ProcessBytes` | src/grid.rs:625-648 | `process` on the buffer, the parser input and the tracker. |
| `ByteInput.InputStage.ProcessChunks` | src/grid.rs:625-656 | Parser input, pending tail and tracker state are functions of the concatenated chunks. |
| `SeqTracker.AdvanceBytes` | src/grid/midseq.rs:48-64 | The ESC search at ground state computes the byte-by-byte result. |
| `SeqTracker.AdvanceSplit` | src/grid/midseq.rs:76-129 | The tracker does not see chunk boundaries. |
| `SeqGrammar.GroundIff` | src/grid/midseq.rs:76-129 | The tracker is at ground after any bytes if and only if they hold no ESC or their last ESC begins a complete sequence of a grammar defined apart from the transitions. |
| `SeqGrammar.SequenceReturns` | src/grid/midseq.rs:76-129 | A complete sequence returns to ground with its last byte and not before. |
| `SeqGrammar.ControlSequenceReturns` | src/grid/midseq.rs:101-108 | So does every CSI with parameters, intermediates and a final byte. |
| `SeqGrammar.EscapeReturns` | src/grid/midseq.rs:84-100 | And every ESC with intermediates and a final byte. |
| `SeqGrammar.StringReturns` | src/grid/midseq.rs:109-124 | And every string ended by its own terminator, CAN or SUB. |
| `SeqGrammar.TerminatedStringReturns` | src/grid/midseq.rs:109-129 | And every string ended by ESC and a backslash. |
| `SeqGrammar.AbortReturns` | src/grid/midseq.rs:66-74 | CAN and SUB return to ground from anywhere, ESC always leaves it. |
| `GridStream.GridIgnoresBatching` | src/session_worker.rs:662-684 | Any two ways to batch the same bytes leave the same grid, parser, pending bytes and count of completed synchronized updates. |
| `GridStream.GridParserLawful` | src/grid/midseq.rs:1-15 | The grid behind a parser that dispatches on the way back to ground obeys the laws the frame count uses. |
| `GridStream.StepSync` | src/grid.rs:1928-2071 | No event but a mode list or a full reset moves the synchronized-update bit. |
| `SyncFrames.FramesIgnoreBatching` | src/session_worker.rs:671-684 | Any two ways to batch the same bytes count the same frames: the on-to-off edges of per-byte sampling, for every parser that obeys the laws. |
| `SyncFrames.QuietHasOneEdge` | src/session_worker.rs:712-719 | Bytes without ESC return to ground at most once, so one sample at their end sees every edge. |
| `SharedChildModel.NoSyscallAfterReap` | src/session_worker.rs:181-255 | In every interleaving by any number of threads nothing addresses the pid after the call that reaped it, every status answered is the reaped one, and calls that lock later answer from it. |
| `SharedChildModel.LiveCallsAct` | src/session_worker.rs:206-254 | In every interleaving a call that gets the lock before the reap makes exactly its one system call and answers with what it said. |
| `SharedChildModel.SharedChild.PollChild` | src/session_worker.rs:206-217 | One poll: at most one system call, and the recorded status afterwards. |
| `SharedChildModel.SharedChild.SignalLocked` | src/session_worker.rs:222-231 | A signal is sent only to a known, unreaped pid. |
| `SharedChildModel.SharedChild.KillLocked` | src/session_worker.rs:234-240 | A kill is sent only before the reap. |
| `SharedChildModel.SharedChild.WaitLocked` | src/session_worker.rs:245-254 | A wait answers the recorded status or records a new one. |
| `SessionProtocol.CaptureIsFaithful` | src/session_worker.rs:915-977 | In every interleaving: at most one publication; the grid was fed a prefix of what was read; the log is its first `cap` bytes; an outcome of clean end-of-file means everything read was fed before finalization. |
| `SessionVerdict.OutcomeTellsTheRun` | src/session_worker.rs:915-977 | In every interleaving the published stream state is clean, failed, expired or aborted if and only if the run called for it, told from the first end received, the step that decided and the grace; the exit is the first status seen and the revision counts what raised it. |
| `SessionVerdict.PollDecidesIff` | src/session_worker.rs:915-944 | An exit poll finalizes if and only if an exit was seen and the stream ended or the grace is over. |
| `SessionVerdict.CleanRunIsClean` | src/session_worker.rs:930-934 | The run of a child that prints and exits is possible and publishes a clean end with everything pumped. |
| `SessionVerdict.NoBatchGoesMissing` | src/session_worker.rs:662-669 | In every interleaving each batch received was fed or counted as dropped, and none is dropped before finalization. |
| `SessionProtocol.FinalStaysFinal` | src/session_worker.rs:282-288 | From any state on, a published outcome never changes, and after finalization neither what the grid was fed nor the log changes. |
| `SessionProtocol.EndMeansAll` | src/session_worker.rs:1042-1077 | Having received the stream end means having received every batch sent, and every byte read. |
| `WorkerModel.FedKeepsLog` | src/session_worker.rs:686-699 | Feeding keeps the log equal to the first `cap` pumped bytes, with the total and the truncation flag. |
| `WorkerModel.SessionWorker.Feed` | src/session_worker.rs:662-707 | Pump, log and count, or only count after finalization. |
| `WorkerModel.SessionWorker.DrainData` | src/session_worker.rs:627-660 | One budgeted drain, while more keeps arriving, takes messages in order, lets the first stream end win, and notes a lost reader. |
| `WorkerModel.DrainInOrder` | src/session_worker.rs:627-660 | A drain receives a prefix of what was queued and arrives, skipping nothing, and all but its last message stay under the budget. |
| `WorkerModel.DrainRunsOn` | src/session_worker.rs:627-660 | A drain stops only on an empty queue or a used-up budget, and notes a reader that is gone. |
| `WorkerModel.ReceivedPumpsAll` | src/session_worker.rs:662-686 | Before finalization every batch received is pumped, whole and in order. |
| `WorkerModel.SessionWorker.StashEvent` | src/session_worker.rs:721-727 | The newest events are kept and every dropped one is counted. |
| `WorkerModel.SessionWorker.PollExitState` | src/session_worker.rs:915-944 | When and with what the outcome is declared after the child is gone. |
| `WorkerModel.SessionWorker.ShutdownAndExit` | src/session_worker.rs:948-977 | Abort feeds what was queued in order, notes the exit, and publishes unless the capture is already final, which it never changes. |
| `WorkerModel.Shared.PublishOutcome` | src/session_worker.rs:282-288 | The first publication stays. |

## Left out

- The vte parser and the unicode-width tables are not part of this model; events, the width laws above and the laws of
  `GridStream.VteLawful` stand in for them.
- Output is modelled as tokens, one per control sequence or character; of the bytes inside a sequence only the decimal
  digits are covered.
- OSC payloads, titles, clipboard, colour queries, device attributes and dropped or forwarded sequences: string
  plumbing.
- src/process.rs, src/pty.rs and the handle of src/session.rs: spawning, system calls, timeouts and joins. The drain
  grace is a nondeterministic flag, system-call answers are parameters.
- Reply routing, stdin writes, observations and the queued-batch counter of the worker.
- src/cell.rs and src/session_observe.rs beyond their records; snapshots keep cells as they are, and text export is
  left out.
- Row recycling through the arena and hyperlink interning: memory reuse without a visible effect.
- `DamageGridObject.DamageGrid` holds its damage as the value that `DirtyTracking.DirtyTracker` refines, not as a
  second object, and its mode bits as a record.
- `Scrolling.ScrollUpExact` is about regions of two or more rows: on a one-row region the code records a shift but
  moves nothing, and the model does the same.
- `DiffProof.DiffRoundTrip`: states of one size, since after a size change the writer paints in full, and without
  visible glued pairs; `ExactTrip.FormattedThenDiff` and `ExactTrip.FollowerKeepsUp` lift the second limit for replays
  of streams.
- `ExactTrip.DiffRoundTripIff`: not about a replay that glued a pair by its own DCH, where `ExactTrip.DiffMissesGlue`
  shows the diff failing.
- `Invariant.ResizeKeeps`: widths above 65528 are not covered, because there the tab and cursor arithmetic leaves 16
  bits; `Resizing.ResizeScreenSpec` covers them for the screen itself.
- `Resizing.ResizeKeepsRectangle`: the same bound.
- `DamageGridObject.DamageGrid.constructor`: needs at least one row and one column and at most 65528 columns; only
  `set_size` clamps zeros, and a grid made without a row can fail on an event.
- `Typing.TextFillsRows`: text of one-column characters that fits the grid; every other printable is covered one event
  at a time by `Provenance.WrapGoesDown` and `Provenance.PrintStays`.
- `QuietDiff.OneChangeOneGlyph`: one changed glyph that does not narrow while it is printed; how much is written for
  other changes is not bounded.
- `ScrollOps.RecordCountsScrollbackIff`: below the scrollback limit and without ED 3, where a count of rows can be read
  back from the length of the scrollback at all.
- `SeqGrammar.GroundIff`: ground or not, which is what `mid_sequence` answers; which of the other states the tracker is
  in is not characterized apart from its transitions.
- A late stream end can still replace `DrainExpired` in later observations; only the published outcome is claimed to
  be final.
