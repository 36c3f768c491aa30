/** What the other spellings of SGR mean (src/grid/parse.rs, src/grid/perform.rs), each by one that the writer uses. */
module SgrForms {
  import opened Basics
  import opened Cells
  import opened Sgr

  /** Colour values saturate. */
  function Saturated(n: u16): u8 {
    Min(n, 255)
  }

  lemma {:induction false} OneParam(p: Param, a: Attrs)
    ensures ApplySgr([p], a) == if TakesColor(Code(p)) then ApplyColor(Code(p), ParseColor([p]).color, a)
                                else ApplyCode(p, a)
  {
    var parsed := ParseColor([p]);
    assert [p][1 + parsed.extra..] == [] && [p][1..] == [];
    NoMore(ApplyColor(Code(p), parsed.color, a));
    NoMore(ApplyCode(p, a));
  }

  lemma {:induction false} NoMore(a: Attrs)
    ensures ApplyParams([], a) == a
  {
  }

  /** Two parameters in a row, the first not an extended colour, apply one after the other. */
  lemma {:induction false} InOrder(p: Param, ps: seq<Param>, a: Attrs)
    requires !TakesColor(Code(p)) && ps != []
    ensures ApplySgr([p] + ps, a) == ApplySgr(ps, ApplySgr([p], a))
  {
    OneParam(p, a);
    ApplyOne(p, ps, a);
  }

  lemma {:induction false} SemicolonIndexed(lead: u16, i: u16, a: Attrs)
    requires TakesColor(lead)
    ensures ApplySgr([[lead], [5], [i]], a) == ApplyColor(lead, Some(Idx(Saturated(i))), a)
  {
    var ps: seq<Param> := [[lead], [5], [i]];
    assert Code(ps[0]) == lead && Code(ps[1]) == 5 && Code(ps[2]) == i;
    assert ps[1 + ParseColor(ps).extra..] == [];
    NoMore(ApplyColor(lead, Some(Idx(Saturated(i))), a));
  }

  lemma {:induction false} SemicolonRgb(lead: u16, r: u16, g: u16, b: u16, a: Attrs)
    requires TakesColor(lead)
    ensures ApplySgr([[lead], [2], [r], [g], [b]], a)
         == ApplyColor(lead, Some(Rgb(Saturated(r), Saturated(g), Saturated(b))), a)
  {
    var ps: seq<Param> := [[lead], [2], [r], [g], [b]];
    assert Code(ps[0]) == lead && Code(ps[1]) == 2 && Code(ps[2]) == r && Code(ps[3]) == g && Code(ps[4]) == b;
    assert ps[1 + ParseColor(ps).extra..] == [];
    NoMore(ApplyColor(lead, Some(Rgb(Saturated(r), Saturated(g), Saturated(b))), a));
  }

  /** The colon form of an indexed colour is the semicolon form, whatever subparameters follow. */
  lemma {:induction false} ColonIndexed(lead: u16, i: u16, more: seq<u16>, a: Attrs)
    requires TakesColor(lead)
    ensures ApplySgr([[lead, 5, i] + more], a) == ApplySgr([[lead], [5], [i]], a)
  {
    var p := [lead, 5, i] + more;
    OneParam(p, a);
    SemicolonIndexed(lead, i, a);
    assert p[1..] == [5, i] + more;
  }

  /** Without a colour space the three values follow the 2. */
  lemma {:induction false} ColonRgb(lead: u16, r: u16, g: u16, b: u16, a: Attrs)
    requires TakesColor(lead)
    ensures ApplySgr([[lead, 2, r, g, b]], a) == ApplySgr([[lead], [2], [r], [g], [b]], a)
  {
    var p := [lead, 2, r, g, b];
    OneParam(p, a);
    SemicolonRgb(lead, r, g, b, a);
    assert p[1..] == [2, r, g, b];
  }

  /** With an empty colour space, which reads 0, they follow that. */
  lemma {:induction false} ColonRgbSpace(lead: u16, r: u16, g: u16, b: u16, more: seq<u16>, a: Attrs)
    requires TakesColor(lead)
    ensures ApplySgr([[lead, 2, 0, r, g, b] + more], a) == ApplySgr([[lead], [2], [r], [g], [b]], a)
  {
    var p := [lead, 2, 0, r, g, b] + more;
    OneParam(p, a);
    SemicolonRgb(lead, r, g, b, a);
    assert p[1..] == [2, 0, r, g, b] + more;
  }

  /**
    * A named colour space is not skipped: the colour read is exactly the named one if and only if all four values are
    * equal once saturated.
    */
  lemma {:induction false} NamedSpaceIff(space: u16, r: u16, g: u16, b: u16, a: Attrs)
    requires space != 0
    ensures ApplySgr([[38, 2, space, r, g, b]], a).foreground == Rgb(Saturated(r), Saturated(g), Saturated(b))
            <==> Saturated(space) == Saturated(r) == Saturated(g) == Saturated(b)
  {
    var p := [38, 2, space, r, g, b];
    OneParam(p, a);
    assert p[1..] == [2, space, r, g, b];
  }

  /** Too few subparameters, or a colour kind other than 2 and 5, leave the pen alone. */
  lemma {:induction false} ColonTooShort(lead: u16, values: seq<u16>, a: Attrs)
    requires TakesColor(lead) && values != []
    requires values[0] !in {2, 5} || (values[0] == 5 && |values| == 1) || (values[0] == 2 && |values| <= 3)
    ensures ApplySgr([[lead] + values], a) == a
  {
    OneParam([lead] + values, a);
    assert ([lead] + values)[1..] == values;
  }

  /** A semicolon form that is cut short sets no colour, and what was there is read as codes of its own. */
  lemma {:induction false} SemicolonTooShort(lead: u16, rest: seq<Param>, a: Attrs)
    requires TakesColor(lead) && rest != []
    requires (Code(rest[0]) == 5 && |rest| < 2) || (Code(rest[0]) == 2 && |rest| < 4) || Code(rest[0]) !in {2, 5}
    ensures ApplySgr([[lead]] + rest, a) == ApplySgr(rest, a)
  {
    assert ([[lead]] + rest)[1..] == rest && ([[lead]] + rest)[1] == rest[0];
  }

  lemma {:induction false} BareLead(lead: u16, a: Attrs)
    requires TakesColor(lead)
    ensures ApplySgr([[lead]], a) == a
  {
    OneParam([lead], a);
  }

  lemma {:induction false} NamedForeground(k: u16, a: Attrs)
    requires k < 8
    ensures ApplySgr([[30 + k]], a) == ApplySgr([[38], [5], [k]], a)
    ensures ApplySgr([[90 + k]], a) == ApplySgr([[38], [5], [k + 8]], a)
  {
    hide ApplySgr;
    OneParam([30 + k], a);
    OneParam([90 + k], a);
    SemicolonIndexed(38, k, a);
    SemicolonIndexed(38, k + 8, a);
  }

  lemma {:induction false} NamedBackground(k: u16, a: Attrs)
    requires k < 8
    ensures ApplySgr([[40 + k]], a) == ApplySgr([[48], [5], [k]], a)
    ensures ApplySgr([[100 + k]], a) == ApplySgr([[48], [5], [k + 8]], a)
  {
    hide ApplySgr;
    OneParam([40 + k], a);
    OneParam([100 + k], a);
    SemicolonIndexed(48, k, a);
    SemicolonIndexed(48, k + 8, a);
  }

  /** The eight standard and the eight bright colours are the first sixteen indices. */
  lemma {:induction false} NamedColours(k: u16, a: Attrs)
    requires k < 8
    ensures ApplySgr([[30 + k]], a) == ApplySgr([[38], [5], [k]], a)
    ensures ApplySgr([[90 + k]], a) == ApplySgr([[38], [5], [k + 8]], a)
    ensures ApplySgr([[40 + k]], a) == ApplySgr([[48], [5], [k]], a)
    ensures ApplySgr([[100 + k]], a) == ApplySgr([[48], [5], [k + 8]], a)
  {
    hide ApplySgr;
    NamedForeground(k, a);
    NamedBackground(k, a);
  }

  /** 21 is 4:2, a bare 4 is 4:1, 24 is 4:0, and an unknown style is a single underline. */
  lemma {:induction false} Underlines(style: u16, more: seq<u16>, a: Attrs)
    requires style > 5
    ensures ApplySgr([[21]], a) == ApplySgr([[4, 2]], a) && ApplySgr([[24]], a) == ApplySgr([[4, 0]], a)
    ensures ApplySgr([[4]], a) == ApplySgr([[4, 1]], a) == ApplySgr([[4, style] + more], a)
  {
    OneParam([21], a);
    OneParam([4, 2], a);
    OneParam([24], a);
    OneParam([4, 0], a);
    OneParam([4], a);
    OneParam([4, 1], a);
    OneParam([4, style] + more, a);
  }

  /** Codes without a meaning. */
  predicate Unknown(code: u16) {
    10 <= code <= 20 || code == 26 || 50 <= code <= 52 || code == 54 || 56 <= code <= 57 || 60 <= code <= 89
    || code >= 108
  }

  /** Subparameters of a code other than underline and colour are ignored, and so is an unknown code. */
  lemma {:induction false} Ignores(code: u16, more: seq<u16>, a: Attrs)
    requires code != 4 && !TakesColor(code)
    ensures ApplySgr([[code] + more], a) == ApplySgr([[code]], a)
    ensures Unknown(code) ==> ApplySgr([[code]], a) == a
  {
    hide Unknown;
    OneParam([code] + more, a);
    OneParam([code], a);
    if Unknown(code) { UnknownCode(code, a); }
  }

  lemma {:induction false} UnknownLow(code: u16, a: Attrs)
    requires 10 <= code <= 20 || code == 26 || 50 <= code <= 52
    ensures ApplyCode([code], a) == a
  {
  }

  lemma {:induction false} UnknownHigh(code: u16, a: Attrs)
    requires code == 54 || 56 <= code <= 57 || 60 <= code <= 89 || code >= 108
    ensures ApplyCode([code], a) == a
  {
  }

  lemma {:induction false} UnknownCode(code: u16, a: Attrs)
    requires Unknown(code)
    ensures ApplyCode([code], a) == a
  {
    hide ApplyCode;
    if code < 53 { UnknownLow(code, a); } else { UnknownHigh(code, a); }
  }
}
