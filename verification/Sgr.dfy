/** SGR (Select Graphic Rendition): the parameter interpreter and the writer that inverts it. */
module Sgr {
  import opened Basics
  import opened Cells

  type Param = seq<u16>

  function Code(param: Param): u16 {
    if param == [] then 0 else param[0]
  }

  function Clamp255(n: u16): u8 {
    if n < 255 then n else 255
  }

  function UnderlineStyleFromSgr(style: u16): UnderlineStyle {
    match style
    case 0 => NoUnderline
    case 2 => Double
    case 3 => Curly
    case 4 => Dotted
    case 5 => Dashed
    case _ => Single
  }

  /** Colon form: `5:idx` or `2[:0]:r:g:b`. */
  function ParseColorValues(values: seq<u16>): Option<Color> {
    if values == [] then None
    else if values[0] == 5 then
      if |values| > 1 then Some(Idx(Clamp255(values[1]))) else None
    else if values[0] == 2 then
      var start := if |values| >= 5 && values[1] == 0 then 2 else 1;
      if start + 2 < |values|
      then Some(Rgb(Clamp255(values[start]), Clamp255(values[start + 1]), Clamp255(values[start + 2])))
      else None
    else None
  }

  datatype ParsedColor = ParsedColor(color: Option<Color>, extra: nat)

  /** Extended colour at the head of `ps`; `extra` is how many further parameters the semicolon form consumed. */
  function ParseColor(ps: seq<Param>): (r: ParsedColor)
    requires ps != []
    ensures r.extra < |ps|
  {
    if |ps[0]| > 1 then ParsedColor(ParseColorValues(ps[0][1..]), 0)
    else if |ps| < 2 then ParsedColor(None, 0)
    else if Code(ps[1]) == 5 then
      if 2 < |ps| then ParsedColor(Some(Idx(Clamp255(Code(ps[2])))), 2) else ParsedColor(None, 0)
    else if Code(ps[1]) == 2 then
      if 4 < |ps|
      then ParsedColor(Some(Rgb(Clamp255(Code(ps[2])), Clamp255(Code(ps[3])), Clamp255(Code(ps[4])))), 4)
      else ParsedColor(None, 0)
    else ParsedColor(None, 0)
  }

  /** The effect of one self-contained code. */
  function ApplyCode(param: Param, a: Attrs): Attrs {
    var code := Code(param);
    match code
    case 0 => DEFAULT_ATTRS
    case 1 => a.(bold := true)
    case 2 => a.(dim := true)
    case 3 => a.(italic := true)
    case 4 => a.(underlineStyle := UnderlineStyleFromSgr(if |param| > 1 then param[1] else 1))
    case 5 => a.(slowBlink := true)
    case 6 => a.(rapidBlink := true)
    case 7 => a.(inverse := true)
    case 8 => a.(conceal := true)
    case 9 => a.(strikethrough := true)
    case 21 => a.(underlineStyle := Double)
    case 22 => a.(bold := false, dim := false)
    case 23 => a.(italic := false)
    case 24 => a.(underlineStyle := NoUnderline)
    case 25 => a.(slowBlink := false, rapidBlink := false)
    case 27 => a.(inverse := false)
    case 28 => a.(conceal := false)
    case 29 => a.(strikethrough := false)
    case 39 => a.(foreground := Default)
    case 49 => a.(background := Default)
    case 53 => a.(overline := true)
    case 55 => a.(overline := false)
    case 59 => a.(underlineColor := Default)
    case _ =>
      if 30 <= code <= 37 then a.(foreground := Idx(code - 30))
      else if 40 <= code <= 47 then a.(background := Idx(code - 40))
      else if 90 <= code <= 97 then a.(foreground := Idx(code - 90 + 8))
      else if 100 <= code <= 107 then a.(background := Idx(code - 100 + 8))
      else a
  }

  function ApplyColor(code: u16, color: Option<Color>, a: Attrs): Attrs {
    if color.None? then a
    else if code == 38 then a.(foreground := color.value)
    else if code == 48 then a.(background := color.value)
    else a.(underlineColor := color.value)
  }

  predicate TakesColor(code: u16) {
    code == 38 || code == 48 || code == 58
  }

  /** Interpret a parameter list left to right. */
  function ApplyParams(ps: seq<Param>, a: Attrs): Attrs {
    if ps == [] then a
    else if TakesColor(Code(ps[0])) then
      var parsed := ParseColor(ps);
      ApplyParams(ps[1 + parsed.extra..], ApplyColor(Code(ps[0]), parsed.color, a))
    else ApplyParams(ps[1..], ApplyCode(ps[0], a))
  }

  /** `apply_sgr`: the empty list is a reset. */
  function ApplySgr(ps: seq<Param>, a: Attrs): Attrs {
    if ps == [] then DEFAULT_ATTRS else ApplyParams(ps, a)
  }

  // ---- the writer ----

  function IndexedOrRgb(lead: u16, c: Color): seq<Param>
    requires !c.Default?
  {
    match c
    case Idx(i) => [[lead], [5], [i]]
    case Rgb(r, g, b) => [[lead], [2], [r], [g], [b]]
  }

  function ForegroundParams(t: Attrs, p: Attrs): seq<Param> {
    if t.foreground == p.foreground then []
    else match t.foreground
      case Default => [[39]]
      case Idx(i) =>
        if i < 8 then [[i + 30]] else if i < 16 then [[i + 82]] else IndexedOrRgb(38, t.foreground)
      case Rgb(_, _, _) => IndexedOrRgb(38, t.foreground)
  }

  function BackgroundParams(t: Attrs, p: Attrs): seq<Param> {
    if t.background == p.background then []
    else match t.background
      case Default => [[49]]
      case Idx(i) =>
        if i < 8 then [[i + 40]] else if i < 16 then [[i + 92]] else IndexedOrRgb(48, t.background)
      case Rgb(_, _, _) => IndexedOrRgb(48, t.background)
  }

  function IntensityParams(t: Attrs, p: Attrs): seq<Param> {
    if t.bold == p.bold && t.dim == p.dim then []
    else if t.bold then (if t.dim then [[1], [2]] else [[22], [1]])
    else if t.dim then [[22], [2]] else [[22]]
  }

  function ItalicParams(t: Attrs, p: Attrs): seq<Param> {
    if t.italic == p.italic then [] else if t.italic then [[3]] else [[23]]
  }

  function UnderlineParams(t: Attrs, p: Attrs): seq<Param> {
    if t.underlineStyle == p.underlineStyle then []
    else match t.underlineStyle
      case NoUnderline => [[24]]
      case Single => [[4]]
      case Double => [[4, 2]]
      case Curly => [[4, 3]]
      case Dotted => [[4, 4]]
      case Dashed => [[4, 5]]
  }

  function UnderlineColorParams(t: Attrs, p: Attrs): seq<Param> {
    if t.underlineColor == p.underlineColor then []
    else if t.underlineColor.Default? then [[59]] else IndexedOrRgb(58, t.underlineColor)
  }

  function InverseParams(t: Attrs, p: Attrs): seq<Param> {
    if t.inverse == p.inverse then [] else if t.inverse then [[7]] else [[27]]
  }

  function StrikethroughParams(t: Attrs, p: Attrs): seq<Param> {
    if t.strikethrough == p.strikethrough then [] else if t.strikethrough then [[9]] else [[29]]
  }

  function BlinkParams(t: Attrs, p: Attrs): seq<Param> {
    if t.slowBlink == p.slowBlink && t.rapidBlink == p.rapidBlink then []
    else
      (if p.slowBlink || p.rapidBlink then [[25]] else []) +
      (if t.slowBlink then [[5]] else []) +
      (if t.rapidBlink then [[6]] else [])
  }

  function ConcealParams(t: Attrs, p: Attrs): seq<Param> {
    if t.conceal == p.conceal then [] else if t.conceal then [[8]] else [[28]]
  }

  function OverlineParams(t: Attrs, p: Attrs): seq<Param> {
    if t.overline == p.overline then [] else if t.overline then [[53]] else [[55]]
  }

  function DecorationParams(t: Attrs, p: Attrs): seq<Param> {
    InverseParams(t, p) + (StrikethroughParams(t, p) + (BlinkParams(t, p) +
      (ConcealParams(t, p) + OverlineParams(t, p))))
  }

  /** The parameter list written when `target` is neither `prev` nor the default record. */
  function ChangedParams(t: Attrs, p: Attrs): seq<Param> {
    ForegroundParams(t, p) + (BackgroundParams(t, p) + (IntensityParams(t, p) + (ItalicParams(t, p) +
      (UnderlineParams(t, p) + (UnderlineColorParams(t, p) + DecorationParams(t, p))))))
  }

  /** `write_attrs_diff`: nothing, a bare reset (which parses as one zero parameter), or the changed parameters. */
  function AttrsDiff(target: Attrs, prev: Attrs): Option<seq<Param>> {
    if target == prev then None
    else if target == DEFAULT_ATTRS then Some([[0]])
    else Some(ChangedParams(target, prev))
  }

  // ---- the round trip ----

  lemma {:induction false} ApplyOne(p: Param, rest: seq<Param>, a: Attrs)
    requires !TakesColor(Code(p))
    ensures ApplyParams([p] + rest, a) == ApplyParams(rest, ApplyCode(p, a))
  {
    assert ([p] + rest)[1..] == rest;
  }

  lemma {:induction false} ApplyTwo(p: Param, q: Param, rest: seq<Param>, a: Attrs)
    requires !TakesColor(Code(p)) && !TakesColor(Code(q))
    ensures ApplyParams([p, q] + rest, a) == ApplyParams(rest, ApplyCode(q, ApplyCode(p, a)))
  {
    assert [p, q] + rest == [p] + ([q] + rest);
    ApplyOne(p, [q] + rest, a);
    ApplyOne(q, rest, ApplyCode(p, a));
  }

  /** The index-advancing colour parser consumes exactly what the writer emitted, whatever follows. */
  lemma {:induction false} ApplyExtended(lead: u16, c: Color, rest: seq<Param>, a: Attrs)
    requires TakesColor(lead) && !c.Default?
    ensures ApplyParams(IndexedOrRgb(lead, c) + rest, a) == ApplyParams(rest, ApplyColor(lead, Some(c), a))
  {
    var ps := IndexedOrRgb(lead, c) + rest;
    assert Code(ps[0]) == lead;
    var parsed := ParseColor(ps);
    match c {
      case Idx(i) =>
        assert Code(ps[1]) == 5 && Code(ps[2]) == i;
        assert parsed == ParsedColor(Some(c), 2);
      case Rgb(r, g, b) =>
        assert Code(ps[1]) == 2 && Code(ps[2]) == r && Code(ps[3]) == g && Code(ps[4]) == b;
        assert parsed == ParsedColor(Some(c), 4);
    }
    assert ps[1 + parsed.extra..] == rest;
  }

  /** A group of at most one self-contained code. */
  lemma {:induction false} ApplyOptional(ps: seq<Param>, rest: seq<Param>, a: Attrs, b: Attrs)
    requires if ps == [] then a == b else |ps| == 1 && !TakesColor(Code(ps[0])) && ApplyCode(ps[0], a) == b
    ensures ApplyParams(ps + rest, a) == ApplyParams(rest, b)
  {
    if ps == [] {
      assert ps + rest == rest;
    } else {
      assert ps == [ps[0]];
      ApplyOne(ps[0], rest, a);
    }
  }

  lemma {:induction false} ApplyForeground(t: Attrs, p: Attrs, rest: seq<Param>, a: Attrs)
    requires a.foreground == p.foreground
    ensures ApplyParams(ForegroundParams(t, p) + rest, a) == ApplyParams(rest, a.(foreground := t.foreground))
  {
    hide ApplyParams;
    if |ForegroundParams(t, p)| <= 1 {
      ApplyOptional(ForegroundParams(t, p), rest, a, a.(foreground := t.foreground));
    } else {
      ApplyExtended(38, t.foreground, rest, a);
    }
  }

  lemma {:induction false} ApplyBackground(t: Attrs, p: Attrs, rest: seq<Param>, a: Attrs)
    requires a.background == p.background
    ensures ApplyParams(BackgroundParams(t, p) + rest, a) == ApplyParams(rest, a.(background := t.background))
  {
    hide ApplyParams;
    if |BackgroundParams(t, p)| <= 1 {
      ApplyOptional(BackgroundParams(t, p), rest, a, a.(background := t.background));
    } else {
      ApplyExtended(48, t.background, rest, a);
    }
  }

  lemma {:induction false} ApplyUnderlineColor(t: Attrs, p: Attrs, rest: seq<Param>, a: Attrs)
    requires a.underlineColor == p.underlineColor
    ensures ApplyParams(UnderlineColorParams(t, p) + rest, a)
         == ApplyParams(rest, a.(underlineColor := t.underlineColor))
  {
    hide ApplyParams;
    if |UnderlineColorParams(t, p)| <= 1 {
      ApplyOptional(UnderlineColorParams(t, p), rest, a, a.(underlineColor := t.underlineColor));
    } else {
      ApplyExtended(58, t.underlineColor, rest, a);
    }
  }

  lemma {:induction false} ApplyItalic(t: Attrs, p: Attrs, rest: seq<Param>, a: Attrs)
    requires a.italic == p.italic
    ensures ApplyParams(ItalicParams(t, p) + rest, a) == ApplyParams(rest, a.(italic := t.italic))
  {
    hide ApplyParams;
    ApplyOptional(ItalicParams(t, p), rest, a, a.(italic := t.italic));
  }

  lemma {:induction false} ApplyUnderline(t: Attrs, p: Attrs, rest: seq<Param>, a: Attrs)
    requires a.underlineStyle == p.underlineStyle
    ensures ApplyParams(UnderlineParams(t, p) + rest, a) == ApplyParams(rest, a.(underlineStyle := t.underlineStyle))
  {
    hide ApplyParams;
    ApplyOptional(UnderlineParams(t, p), rest, a, a.(underlineStyle := t.underlineStyle));
  }

  lemma {:induction false} ApplyInverse(t: Attrs, p: Attrs, rest: seq<Param>, a: Attrs)
    requires a.inverse == p.inverse
    ensures ApplyParams(InverseParams(t, p) + rest, a) == ApplyParams(rest, a.(inverse := t.inverse))
  {
    hide ApplyParams;
    ApplyOptional(InverseParams(t, p), rest, a, a.(inverse := t.inverse));
  }

  lemma {:induction false} ApplyStrikethrough(t: Attrs, p: Attrs, rest: seq<Param>, a: Attrs)
    requires a.strikethrough == p.strikethrough
    ensures ApplyParams(StrikethroughParams(t, p) + rest, a) == ApplyParams(rest, a.(strikethrough := t.strikethrough))
  {
    hide ApplyParams;
    ApplyOptional(StrikethroughParams(t, p), rest, a, a.(strikethrough := t.strikethrough));
  }

  lemma {:induction false} ApplyConceal(t: Attrs, p: Attrs, rest: seq<Param>, a: Attrs)
    requires a.conceal == p.conceal
    ensures ApplyParams(ConcealParams(t, p) + rest, a) == ApplyParams(rest, a.(conceal := t.conceal))
  {
    hide ApplyParams;
    ApplyOptional(ConcealParams(t, p), rest, a, a.(conceal := t.conceal));
  }

  lemma {:induction false} ApplyOverline(t: Attrs, p: Attrs, rest: seq<Param>, a: Attrs)
    requires a.overline == p.overline
    ensures ApplyParams(OverlineParams(t, p) + rest, a) == ApplyParams(rest, a.(overline := t.overline))
  {
    hide ApplyParams;
    ApplyOptional(OverlineParams(t, p), rest, a, a.(overline := t.overline));
  }

  /** Clearing either intensity bit goes through the shared reset 22 and re-asserts the survivor. */
  lemma {:induction false} ApplyIntensity(t: Attrs, p: Attrs, rest: seq<Param>, a: Attrs)
    requires a.bold == p.bold && a.dim == p.dim
    ensures ApplyParams(IntensityParams(t, p) + rest, a) == ApplyParams(rest, a.(bold := t.bold, dim := t.dim))
  {
    hide ApplyParams;
    if t.bold == p.bold && t.dim == p.dim {
      assert [] + rest == rest;
    } else if t.bold && t.dim {
      ApplyTwo([1], [2], rest, a);
    } else if t.bold {
      ApplyTwo([22], [1], rest, a);
    } else if t.dim {
      ApplyTwo([22], [2], rest, a);
    } else {
      ApplyOne([22], rest, a);
    }
  }

  /** Slow and rapid blink share the reset 25, written only when the old pen blinked. */
  lemma {:induction false} ApplyBlink(t: Attrs, p: Attrs, rest: seq<Param>, a: Attrs)
    requires a.slowBlink == p.slowBlink && a.rapidBlink == p.rapidBlink
    ensures ApplyParams(BlinkParams(t, p) + rest, a)
         == ApplyParams(rest, a.(slowBlink := t.slowBlink, rapidBlink := t.rapidBlink))
  {
    hide ApplyParams;
    if t.slowBlink == p.slowBlink && t.rapidBlink == p.rapidBlink {
      assert [] + rest == rest;
    } else {
      var off: seq<Param> := if p.slowBlink || p.rapidBlink then [[25]] else [];
      var slow: seq<Param> := if t.slowBlink then [[5]] else [];
      var rapid: seq<Param> := if t.rapidBlink then [[6]] else [];
      assert BlinkParams(t, p) + rest == off + (slow + (rapid + rest));
      ApplyBlinkPieces(off, slow, rapid, t, rest, a);
    }
  }

  lemma {:induction false} ApplyBlinkPieces(off: seq<Param>, slow: seq<Param>, rapid: seq<Param>, t: Attrs,
      rest: seq<Param>, a: Attrs)
    requires off == (if a.slowBlink || a.rapidBlink then [[25]] else [])
    requires slow == (if t.slowBlink then [[5]] else [])
    requires rapid == (if t.rapidBlink then [[6]] else [])
    ensures ApplyParams(off + (slow + (rapid + rest)), a)
         == ApplyParams(rest, a.(slowBlink := t.slowBlink, rapidBlink := t.rapidBlink))
  {
    hide ApplyParams, ApplyCode;
    BlinkOff(off, slow + (rapid + rest), a);
    BlinkOn(slow, rapid, t, rest, a.(slowBlink := false, rapidBlink := false));
  }

  lemma {:induction false} BlinkOff(off: seq<Param>, rest: seq<Param>, a: Attrs)
    requires off == (if a.slowBlink || a.rapidBlink then [[25]] else [])
    ensures ApplyParams(off + rest, a) == ApplyParams(rest, a.(slowBlink := false, rapidBlink := false))
  {
    hide ApplyParams, ApplyCode;
    BlinkCodes(a);
    ApplyOptional(off, rest, a, a.(slowBlink := false, rapidBlink := false));
  }

  lemma {:induction false} BlinkOn(slow: seq<Param>, rapid: seq<Param>, t: Attrs, rest: seq<Param>, b: Attrs)
    requires !b.slowBlink && !b.rapidBlink
    requires slow == (if t.slowBlink then [[5]] else [])
    requires rapid == (if t.rapidBlink then [[6]] else [])
    ensures ApplyParams(slow + (rapid + rest), b)
        == ApplyParams(rest, b.(slowBlink := t.slowBlink, rapidBlink := t.rapidBlink))
  {
    hide ApplyParams, ApplyCode;
    var c := b.(slowBlink := t.slowBlink);
    BlinkCodes(b);
    BlinkCodes(c);
    ApplyOptional(slow, rapid + rest, b, c);
    ApplyOptional(rapid, rest, c, c.(rapidBlink := t.rapidBlink));
  }

  lemma {:induction false} BlinkCodes(a: Attrs)
    ensures ApplyCode([25], a) == a.(slowBlink := false, rapidBlink := false)
    ensures ApplyCode([5], a) == a.(slowBlink := true) && ApplyCode([6], a) == a.(rapidBlink := true)
    ensures !TakesColor(Code([25])) && !TakesColor(Code([5])) && !TakesColor(Code([6]))
  {
  }

  lemma {:induction false} ApplyDecoration(t: Attrs, p: Attrs, a: Attrs)
    requires a == t.(inverse := p.inverse, strikethrough := p.strikethrough, slowBlink := p.slowBlink,
                     rapidBlink := p.rapidBlink, conceal := p.conceal, overline := p.overline)
    ensures ApplyParams(DecorationParams(t, p), a) == t
  {
    var over := OverlineParams(t, p);
    var a1 := a.(inverse := t.inverse);
    var a2 := a1.(strikethrough := t.strikethrough);
    var a3 := a2.(slowBlink := t.slowBlink, rapidBlink := t.rapidBlink);
    var a4 := a3.(conceal := t.conceal);
    assert ApplyParams(over, a4) == t by {
      hide ApplyCode, OverlineParams;
      assert over + [] == over;
      ApplyOverline(t, p, [], a4);
    }
    hide ApplyParams, ApplyCode, BlinkParams, InverseParams, StrikethroughParams, ConcealParams, OverlineParams;
    ApplyConceal(t, p, over, a3);
    ApplyBlink(t, p, ConcealParams(t, p) + over, a2);
    ApplyStrikethrough(t, p, BlinkParams(t, p) + (ConcealParams(t, p) + over), a1);
    ApplyInverse(t, p, StrikethroughParams(t, p) + (BlinkParams(t, p) + (ConcealParams(t, p) + over)), a);
  }

  lemma {:induction false} ApplyStyle(t: Attrs, p: Attrs, rest: seq<Param>, a: Attrs)
    requires a.italic == p.italic && a.underlineStyle == p.underlineStyle && a.underlineColor == p.underlineColor
    ensures ApplyParams(ItalicParams(t, p) + (UnderlineParams(t, p) + (UnderlineColorParams(t, p) + rest)), a)
         == ApplyParams(rest, a.(italic := t.italic, underlineStyle := t.underlineStyle,
                                 underlineColor := t.underlineColor))
  {
    hide ApplyParams, ItalicParams, UnderlineParams, UnderlineColorParams;
    var b := a.(italic := t.italic);
    ApplyUnderlineColor(t, p, rest, b.(underlineStyle := t.underlineStyle));
    ApplyUnderline(t, p, UnderlineColorParams(t, p) + rest, b);
    ApplyItalic(t, p, UnderlineParams(t, p) + (UnderlineColorParams(t, p) + rest), a);
  }

  lemma {:induction false} ApplyColors(t: Attrs, p: Attrs, rest: seq<Param>)
    ensures ApplyParams(ForegroundParams(t, p) + (BackgroundParams(t, p) + (IntensityParams(t, p) + rest)), p)
         == ApplyParams(rest, p.(foreground := t.foreground, background := t.background, bold := t.bold, dim := t.dim))
  {
    hide ApplyParams, ForegroundParams, BackgroundParams, IntensityParams;
    var r1 := IntensityParams(t, p) + rest;
    var a := p.(foreground := t.foreground);
    var b := a.(background := t.background);
    ApplyForeground(t, p, BackgroundParams(t, p) + r1, p);
    ApplyBackground(t, p, r1, a);
    ApplyIntensity(t, p, rest, b);
  }

  lemma {:induction false} ApplyChanged(t: Attrs, p: Attrs)
    ensures ApplyParams(ChangedParams(t, p), p) == t
  {
    hide ApplyParams, ForegroundParams, BackgroundParams, IntensityParams, ItalicParams, UnderlineParams,
      UnderlineColorParams, DecorationParams;
    var deco := DecorationParams(t, p);
    var a := p.(foreground := t.foreground, background := t.background, bold := t.bold, dim := t.dim);
    ApplyColors(t, p, ItalicParams(t, p) + (UnderlineParams(t, p) + (UnderlineColorParams(t, p) + deco)));
    ApplyStyle(t, p, deco, a);
    ApplyDecoration(t, p, a.(italic := t.italic, underlineStyle := t.underlineStyle,
                             underlineColor := t.underlineColor));
  }

  /** A change always writes at least one parameter, so it is never read back as the bare reset. */
  lemma {:induction false} ChangedIsNonEmpty(t: Attrs, p: Attrs)
    requires t != p
    ensures ChangedParams(t, p) != []
  {
    hide ChangedParams;
    if ChangedParams(t, p) == [] {
      ApplyChanged(t, p);
      assert false;
    }
  }

  /**
    * SGR round trip (section 8.3.117 of ECMA-48): whatever the pen was, applying what the writer emitted for
    * `target` leaves exactly `target`.
    */
  lemma {:induction false} SgrRoundTrip(target: Attrs, prev: Attrs)
    ensures match AttrsDiff(target, prev)
            case None => target == prev
            case Some(ps) => ApplySgr(ps, prev) == target
  {
    if target == DEFAULT_ATTRS {
      assert [[0]] == [[0]] + [];
      ApplyOne([0], [], prev);
    } else if target != prev {
      hide ApplyParams, ChangedParams;
      ChangedIsNonEmpty(target, prev);
      ApplyChanged(target, prev);
    }
  }

  // ---- the loops of the source ----

  /** `parse_sgr_color`: index form, advancing the caller's index for semicolon parameters. */
  method ParseColorAt(params: seq<Param>, i: nat) returns (color: Option<Color>, j: nat)
    requires i < |params|
    ensures i <= j < |params|
    ensures ParseColor(params[i..]) == ParsedColor(color, j - i)
  {
    color, j := None, i;
    ghost var ps := params[i..];
    assert |params| > i + 1 ==> ps[1] == params[i + 1];
    assert |params| > i + 2 ==> ps[2] == params[i + 2];
    assert |params| > i + 4 ==> ps[3] == params[i + 3] && ps[4] == params[i + 4];
    if |params[i]| > 1 {
      color := ParseColorValues(params[i][1..]);
      return;
    }
    if i + 1 >= |params| {
      return;
    }
    var mode := Code(params[i + 1]);
    if mode == 5 {
      if i + 2 < |params| {
        color := Some(Idx(Clamp255(Code(params[i + 2]))));
        j := i + 2;
      }
    } else if mode == 2 {
      if i + 4 < |params| {
        color := Some(Rgb(Clamp255(Code(params[i + 2])), Clamp255(Code(params[i + 3])), Clamp255(Code(params[i + 4]))));
        j := i + 4;
      }
    }
  }

  /** `apply_sgr` as the source runs it: one pass with an index that colour parsing may advance. */
  method RunSgr(params: seq<Param>, pen: Attrs) returns (r: Attrs)
    ensures r == ApplySgr(params, pen)
  {
    if params == [] {
      return DEFAULT_ATTRS;
    }
    r := pen;
    var i := 0;
    assert params[0..] == params;
    while i < |params|
      invariant 0 <= i <= |params|
      invariant ApplyParams(params[i..], r) == ApplyParams(params, pen)
    {
      var code := Code(params[i]);
      ghost var rest := params[i..];
      if TakesColor(code) {
        var color, j := ParseColorAt(params, i);
        assert rest[1 + (j - i)..] == params[j + 1..];
        r := ApplyColor(code, color, r);
        i := j + 1;
      } else {
        assert rest[1..] == params[i + 1..];
        r := ApplyCode(params[i], r);
        i := i + 1;
      }
    }
    assert params[i..] == [];
  }
}
