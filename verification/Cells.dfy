/** Cell records (src/cell.rs) and the display-width contract (src/width.rs). */
module Cells {
  import opened Basics

  datatype Color = Default | Idx(index: u8) | Rgb(r: u8, g: u8, b: u8)

  datatype UnderlineStyle = NoUnderline | Single | Double | Curly | Dotted | Dashed

  datatype Attrs = Attrs(
    foreground: Color,
    background: Color,
    underlineColor: Color,
    underlineStyle: UnderlineStyle,
    bold: bool,
    italic: bool,
    inverse: bool,
    dim: bool,
    strikethrough: bool,
    slowBlink: bool,
    rapidBlink: bool,
    conceal: bool,
    overline: bool)

  const DEFAULT_ATTRS: Attrs :=
    Attrs(Default, Default, Default, NoUnderline, false, false, false, false, false, false, false, false, false)

  datatype Hyperlink = Hyperlink(id: string, uri: string)

  datatype Cell = Cell(
    contents: string,
    wide: bool,
    cont: bool,
    attrs: Attrs,
    link: Option<Hyperlink>)
  {
    predicate HasContents() {
      contents != ""
    }
  }

  const DEFAULT_CELL: Cell := Cell("", false, false, DEFAULT_ATTRS, None)

  /** Zero-width joiner, U+200D. */
  const ZWJ: char := '\U{200D}'

  /** The most characters that may join the base of one cell. */
  const MAX_CLUSTER_JOINERS: nat := 16

  /** A blank that carries a background colour and nothing else (back-colour-erase). */
  function BlankCell(background: Color): Cell {
    DEFAULT_CELL.(attrs := DEFAULT_ATTRS.(background := background))
  }

  /** The cell that fills the second column of a wide glyph. */
  function ContinuationCell(attrs: Attrs, link: Option<Hyperlink>): Cell {
    Cell("", false, true, attrs, link)
  }

  predicate EndsWithZwj(s: string) {
    s != "" && s[|s| - 1] == ZWJ
  }

  /** Equality over the replay contract: everything but hyperlink metadata. */
  predicate SameLook(a: Cell, b: Cell) {
    a.contents == b.contents && a.wide == b.wide && a.cont == b.cont && a.attrs == b.attrs
  }

  /**
    * The width tables, left uninterpreted. `charWidth` is the clamped scalar width and `clusterWidth` the
    * clamped string width; both are external tables the grid only consults. `clusterModeStatus` is what a query for
    * mode 2027 answers.
    */
  datatype ProfileTables =
    ProfileTables(charWidth: char -> nat, clusterWidth: string -> nat, clusterModeStatus: u16)

  ghost predicate LawfulTables(p: ProfileTables) {
    && (forall c: char :: p.charWidth(c) <= 2)
    && p.charWidth(ZWJ) == 0
    && p.charWidth(' ') == 1
    && (forall s: string :: s != "" && p.charWidth(s[0]) > 0 ==> 1 <= p.clusterWidth(s) <= 2)
  }

  type Profile = p: ProfileTables | LawfulTables(p)
    ghost witness ProfileTables((c: char) => if c == ZWJ then 0 else 1, (s: string) => 1, 0)

  /** Whether a non-empty cluster occupies two columns: a lone scalar by its own width, a join by the cluster's. */
  predicate WideCluster(p: Profile, s: string)
    requires s != ""
  {
    if |s| == 1 then p.charWidth(s[0]) > 1 else p.clusterWidth(s) > 1
  }

  /** A cluster one cell may hold: a positive-width base, then zero-width or ZWJ-joined characters. */
  predicate ClusterOk(p: Profile, s: string) {
    && 1 <= |s| <= MAX_CLUSTER_JOINERS + 1
    && p.charWidth(s[0]) > 0
    && forall i | 1 <= i < |s| :: p.charWidth(s[i]) == 0 || s[i - 1] == ZWJ
  }

  predicate CellOk(p: Profile, c: Cell) {
    if c.contents == "" then
      !c.wide && (c.cont || c == BlankCell(c.attrs.background))
    else
      !c.cont && ClusterOk(p, c.contents) && c.wide == WideCluster(p, c.contents)
  }

  /** Width law used by diffs: a cluster with a narrow base never narrows again once it has widened. */
  ghost predicate NarrowBaseStaysWide(p: Profile) {
    forall s: string, k: nat ::
      s != "" && p.charWidth(s[0]) == 1 && 1 <= k <= |s| && WideCluster(p, s[..k]) ==> WideCluster(p, s)
  }
}
