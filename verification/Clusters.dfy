/** Printing a whole cluster: the base lands, every later character joins it, and neighbours change predictably. */
module Clusters {
  import opened Basics
  import opened Cells
  import opened Rows
  import opened Damage
  import opened GridModel
  import opened Invariant
  import opened Serialize
  import opened Replay

  /** Some prefix of at most `k` characters occupied two columns. */
  predicate Widened(p: Profile, s: string, k: nat)
    requires k <= |s|
  {
    exists m | 1 <= m <= k :: WideCluster(p, s[..m])
  }

  /** The right neighbour after the first `k` characters of `s` were printed at `col`. */
  predicate NextCell(p: Profile, was: Row, now: Row, col: nat, s: string, k: nat)
    requires |now| == |was| && col + 1 < |was| && k <= |s|
  {
    if now[col].wide then SameLook(now[col + 1], ContinuationCell(now[col].attrs, None))
    else
      || now[col + 1] == was[col + 1]
      || (now[col + 1] == DEFAULT_CELL && (was[col].wide || Widened(p, s, k)))
  }

  /** Row `now` is row `was` after the first `k` characters of `s` were printed at `col` with `attrs`. */
  predicate Stamped(p: Profile, was: Row, now: Row, col: nat, s: string, k: nat, attrs: Attrs) {
    && |now| == |was| && col < |was| && 1 <= k <= |s|
    && (forall j | 0 <= j < |was| && (j < col || j > col + 2) :: now[j] == was[j])
    && now[col].contents == s[..k] && now[col].wide == WideCluster(p, s[..k])
    && !now[col].cont && now[col].attrs == attrs
    && (col + 1 < |was| ==> NextCell(p, was, now, col, s, k))
    && (col + 2 < |was| ==>
          || now[col + 2] == was[col + 2]
          || (now[col + 2] == DEFAULT_CELL && was[col + 1].wide && Widened(p, s, k)))
  }

  lemma {:induction false} PutStamps(p: Profile, was: Row, col: nat, s: string, attrs: Attrs, link: Option<Hyperlink>)
    requires col < |was| && !was[col].cont && s != ""
    ensures Stamped(p, was, PutGlyph(was, col, Cell([s[0]], p.charWidth(s[0]) > 1, false, attrs, link)), col, s, 1,
        attrs)
  {
    var cell := Cell([s[0]], p.charWidth(s[0]) > 1, false, attrs, link);
    var now := PutGlyph(was, col, cell);
    assert s[..1] == [s[0]];
    assert cell.wide ==> Widened(p, s, 1);
    hide PutGlyph;
    assert col > 0 ==> now[col - 1] == was[col - 1];
    assert forall j | 0 <= j < col :: now[j] == was[j];
  }

  lemma {:induction false} WidenedGrows(p: Profile, s: string, k: nat)
    requires k + 1 <= |s|
    ensures Widened(p, s, k) ==> Widened(p, s, k + 1)
    ensures k >= 1 && WideCluster(p, s[..k]) ==> Widened(p, s, k)
    ensures WideCluster(p, s[..k + 1]) ==> Widened(p, s, k + 1)
  {
  }

  lemma {:induction false} JoinStamps(p: Profile, was: Row, mid: Row, col: nat, s: string, k: nat, attrs: Attrs,
      link: Option<Hyperlink>)
    requires Stamped(p, was, mid, col, s, k, attrs) && k < |s| && Paired(mid)
    ensures Stamped(p, was, JoinCluster(mid, col, s[..k + 1], link, Min(p.clusterWidth(s[..k + 1]), 2)), col, s, k + 1,
        attrs)
  {
    var width := Min(p.clusterWidth(s[..k + 1]), 2);
    var now := JoinCluster(mid, col, s[..k + 1], link, width);
    WidenedGrows(p, s, k);
    assert PairedAt(mid, col);
    assert col + 1 < |mid| ==> PairedAt(mid, col + 1);
    hide SetCellWidth;
    assert forall j | 0 <= j < |was| && (j < col || j > col + 2) :: now[j] == was[j];
  }

  // ---- the cursor through a join ----

  predicate AtClusterEnd(r: Grid, col: u16) {
    && Canvas(r) && col < r.cols
    && ActiveRow(r)[col].HasContents()
    && r.col == Min(col + CellWidth(ActiveRow(r)[col]), r.cols)
    && r.lastPrint == Some((r.row, r.col))
  }

  lemma {:induction false} TargetIsCluster(r: Grid, col: u16)
    requires AtClusterEnd(r, col)
    ensures JoinTarget(r).Some? && LeadOf(ActiveRow(r), JoinTarget(r).value) == col
  {
    var row := ActiveRow(r);
    ActiveRowOk(r);
    assert CellOk(r.profile, row[col]) && PairedAt(row, col);
    assert col + 1 < |row| ==> PairedAt(row, col + 1);
  }

  lemma {:induction false} ExtendEffect(r: Grid, col: u16, contents: string)
    requires AtClusterEnd(r, col) && contents != "" && 1 <= r.profile.clusterWidth(contents) <= 2
    ensures var w := Min(r.profile.clusterWidth(contents), 2);
            var s := ExtendCluster(r, col, contents);
            && Repainted(r, s, r.row, JoinCluster(ActiveRow(r), col, contents, r.activeLink, w))
            && s.row == r.row && s.col == Min(col + w, r.cols) && s.pen == r.pen
            && s.activeLink == r.activeLink && s.lastPrint == Some((s.row, s.col))
  {
    var row := ActiveRow(r);
    ActiveRowOk(r);
    assert CellOk(r.profile, row[col]);
    assert 1 <= CellWidth(row[col]) <= 2;
    hide CellOk, RowOk, ScreenOk, MarkRange, WithActiveRow, JoinCluster, CellWidth;
    WithActiveRowFrame(r, JoinCluster(row, col, contents, r.activeLink, Min(r.profile.clusterWidth(contents), 2)));
  }

  lemma {:induction false} AppendJoins(r: Grid, col: u16, s: string, k: nat)
    requires AtClusterEnd(r, col) && ClusterOk(r.profile, s) && 1 <= k < |s|
    requires ActiveRow(r)[col].contents == s[..k]
    ensures Append(r, s[k], r.profile.charWidth(s[k])) == Some(ExtendCluster(r, col, s[..k + 1]))
  {
    TargetIsCluster(r, col);
    assert s[..k + 1] == s[..k] + [s[k]];
    assert s[..k][k - 1] == s[k - 1];
    hide ExtendCluster, WF, JoinTarget, LeadOf, Shape, CellWidth;
  }

  /** One joining character. */
  lemma {:induction false} StepJoin(r: Grid, col: u16, s: string, k: nat)
    requires AtClusterEnd(r, col) && ClusterOk(r.profile, s) && 1 <= k < |s|
    requires ActiveRow(r)[col].contents == s[..k]
    ensures var w := Min(r.profile.clusterWidth(s[..k + 1]), 2);
            var t := Step(r, Print(s[k]));
            && Canvas(t) && t.row == r.row && t.col == Min(col + w, r.cols) && t.pen == r.pen
            && t.activeLink == r.activeLink && t.lastPrint == Some((t.row, t.col)) && 1 <= w <= 2
            && Repainted(r, t, r.row, JoinCluster(ActiveRow(r), col, s[..k + 1], r.activeLink, w))
  {
    var longer := s[..k + 1];
    assert longer[0] == s[0];
    var r0 := Touch(r);
    assert AtClusterEnd(r0, col);
    var t := ExtendCluster(r0, col, longer);
    assert Step(r, Print(s[k])) == t by {
      AppendJoins(r0, col, s, k);
      hide ExtendCluster, Append, WF, Shape, ActiveRow;
    }
    StepKeeps(r, Print(s[k]));
    ExtendEffect(r0, col, longer);
    hide Step, ExtendCluster, JoinCluster, WF, CellWidth, ClusterOk;
  }

  // ---- the whole cluster ----

  lemma {:induction false} PrintAllSplit(s: string, k: nat)
    requires k < |s|
    ensures PrintAll(s[k..]) == [Print(s[k])] + PrintAll(s[k + 1..])
  {
  }

  /** After `k` characters: cursor at the cluster's end, row stamped, the rest of the screen untouched. */
  ghost predicate Printing(r0: Grid, r: Grid, pos: Pos, s: string, k: nat) {
    && Canvas(r) && SameSetup(r0, r) && r.pen == r0.pen && r.activeLink == r0.activeLink
    && pos.row < |Vis(r0)| && r.row == pos.row && 1 <= k <= |s|
    && |Vis(r)| == |Vis(r0)| && pos.col < r.cols == r0.cols
    && (forall i | 0 <= i < |Vis(r)| && i != pos.row :: Vis(r)[i] == Vis(r0)[i])
    && Stamped(r.profile, Vis(r0)[pos.row], Vis(r)[pos.row], pos.col, s, k, r0.pen)
    && r.col == Min(pos.col + (if WideCluster(r.profile, s[..k]) then 2 else 1), r.cols)
    && r.lastPrint == Some((r.row, r.col))
  }

  lemma {:induction false} PrintBase(r: Grid, pos: Pos, s: string)
    requires PrintsAt(r, pos) && ClusterOk(r.profile, s) && !Vis(r)[pos.row][pos.col].cont
    ensures Printing(r, Step(r, Print(s[0])), pos, s, 1)
  {
    hide PutGlyph, Step, ScreenOk, NoJoin, Stamped;
    var was := Vis(r)[pos.row];
    assert |was| == r.cols && |Vis(r)| == r.rows;
    assert s[..1] == [s[0]] && s[0] == s[..1][0];
    StepPrint(r, s[0], pos);
    PutStamps(r.profile, was, pos.col, s, r.pen, r.activeLink);
  }

  lemma {:induction false} PrintJoin(r0: Grid, r: Grid, pos: Pos, s: string, k: nat)
    requires Printing(r0, r, pos, s, k) && ClusterOk(r.profile, s) && k < |s|
    ensures Printing(r0, Step(r, Print(s[k])), pos, s, k + 1)
  {
    hide Step, ScreenOk, ScreenShape, RowOk, Stamped, JoinCluster, AtClusterEnd, ClusterOk, Paired;
    var row := Vis(r)[pos.row];
    assert row == ActiveRow(r);
    PrintingAtEnd(r0, r, pos, s, k);
    StepJoin(r, pos.col, s, k);
    JoinStamps(r.profile, Vis(r0)[pos.row], row, pos.col, s, k, r0.pen, r.activeLink);
  }

  lemma {:induction false} PrintingAtEnd(r0: Grid, r: Grid, pos: Pos, s: string, k: nat)
    requires Printing(r0, r, pos, s, k)
    ensures AtClusterEnd(r, pos.col) && ActiveRow(r)[pos.col].contents == s[..k] && Paired(ActiveRow(r))
  {
    hide NextCell, Widened, SameSetup, ScreenOk, RowOk;
    assert Paired(ActiveRow(r)) by { RowIsPaired(r); }
  }

  lemma {:induction false} RowIsPaired(r: Grid)
    requires WF(r)
    ensures Paired(ActiveRow(r))
  {
    ActiveRowOk(r);
  }

  lemma {:induction false} PrintingFacts(r0: Grid, r: Grid, pos: Pos, s: string, k: nat)
    requires Printing(r0, r, pos, s, k)
    ensures Shape(r) && r.profile == r0.profile && 1 <= k <= |s|
  {
    hide Stamped, ScreenOk, ScreenShape;
  }

  lemma {:induction false} PrintRest(r0: Grid, r: Grid, pos: Pos, s: string, k: nat)
    requires Printing(r0, r, pos, s, k) && ClusterOk(r.profile, s)
    ensures Printing(r0, Run(r, PrintAll(s[k..])), pos, s, |s|)
    decreases |s| - k
  {
    hide Step, Run, Printing, ClusterOk, Shape;
    PrintingFacts(r0, r, pos, s, k);
    if k < |s| {
      PrintAllSplit(s, k);
      RunSplit(r, [Print(s[k])], PrintAll(s[k + 1..]));
      RunOne(r, Print(s[k]));
      PrintJoin(r0, r, pos, s, k);
      PrintingFacts(r0, Step(r, Print(s[k])), pos, s, k + 1);
      PrintRest(r0, Step(r, Print(s[k])), pos, s, k + 1);
    } else {
      assert PrintAll(s[k..]) == [];
      RunNothing(r);
    }
  }

  lemma {:induction false} CanvasOf(r: Grid, pos: Pos)
    requires PrintsAt(r, pos)
    ensures Shape(r)
  {
    hide ScreenOk, ScreenShape, NoJoin;
  }

  /** Printing a well-formed cluster where a print lands reproduces exactly that cluster there. */
  lemma {:induction false} PrintCluster(r: Grid, pos: Pos, s: string)
    requires PrintsAt(r, pos) && ClusterOk(r.profile, s) && !Vis(r)[pos.row][pos.col].cont
    ensures Printing(r, Run(r, PrintAll(s)), pos, s, |s|)
  {
    hide Step, Printing, Run, Shape, Canvas, NoJoin;
    assert s[0..] == s && s != "";
    PrintAllSplit(s, 0);
    PrintBase(r, pos, s);
    CanvasOf(r, pos);
    RunSplit(r, [Print(s[0])], PrintAll(s[1..]));
    RunOne(r, Print(s[0]));
    PrintingFacts(r, Step(r, Print(s[0])), pos, s, 1);
    PrintRest(r, Step(r, Print(s[0])), pos, s, 1);
  }
}
