/**
  * When a byte string ends outside any escape sequence: the grammar of complete sequences that the tracker of
  * src/grid/midseq.rs follows, defined without its transition table.
  */
module SeqGrammar {
  import opened Basics
  import opened Utf8
  import opened SeqTracker

  /** What the first significant byte after ESC opens. */
  datatype Kind = Short | Intermediate | ControlSequence | CommandString | DeviceString | PlainString

  const CAN: u8 := 0x18
  const SUB: u8 := 0x1a

  /** Controls carried out inside a sequence, DEL and bytes from 0x80 on neither open nor end anything. */
  predicate Passed(b: u8) {
    b >= 0x7f || (b < 0x20 && b != CAN && b != SUB && b != ESC)
  }

  /** CSI, OSC, DCS, the three strings without a meaning, an intermediate, or a sequence of this one byte. */
  function KindOf(b: u8): Kind {
    if b == 0x5b then ControlSequence
    else if b == 0x5d then CommandString
    else if b == 0x50 then DeviceString
    else if b in {0x58, 0x5e, 0x5f} then PlainString
    else if 0x20 <= b <= 0x2f then Intermediate
    else Short
  }

  /** The bytes that end what was opened; ESC, which starts over, is not among them. */
  predicate Ends(kind: Kind, b: u8) {
    || b == CAN || b == SUB
    || match kind
       case Short => false
       case Intermediate => 0x30 <= b <= 0x7e
       case ControlSequence => 0x40 <= b <= 0x7e
       case CommandString => b == 0x07
       case DeviceString => b == 0x9c
       case PlainString => false
  }

  /** `i` is the first byte of `x` that opens or ends something. */
  predicate Opens(x: Bytes, i: nat) {
    i < |x| && !Passed(x[i]) && x[i] != ESC && forall j | 0 <= j < i :: Passed(x[j])
  }

  /** What follows the ESC of one complete sequence, from its opening byte at `i` to its ending byte. */
  predicate CompleteFrom(x: Bytes, i: nat) {
    && Opens(x, i)
    && if KindOf(x[i]) == Short then i == |x| - 1
       else i < |x| - 1 && Ends(KindOf(x[i]), x[|x| - 1])
            && forall j | i < j < |x| - 1 :: x[j] != ESC && !Ends(KindOf(x[i]), x[j])
  }

  predicate Complete(x: Bytes) {
    exists i: nat | i < |x| :: CompleteFrom(x, i)
  }

  /** Outside any sequence: no ESC at all, or the last one begins a sequence that is complete, and text follows it. */
  ghost predicate Outside(bytes: Bytes) {
    ESC in bytes ==> exists e: nat, k: nat :: LastEscape(bytes, e) && CompleteBetween(bytes, e, k)
  }

  predicate LastEscape(bytes: Bytes, e: nat) {
    e < |bytes| && bytes[e] == ESC && forall i | e < i < |bytes| :: bytes[i] != ESC
  }

  /** The bytes behind the ESC at `e` and before `k` complete its sequence. */
  predicate CompleteBetween(bytes: Bytes, e: nat, k: nat) {
    e < k <= |bytes| && Complete(bytes[e + 1..k])
  }

  // ---- inside one sequence ----

  /** The state a sequence of this kind is in until it ends. */
  function Inside(kind: Kind): SeqState
    requires kind != Short
  {
    match kind
    case Intermediate => EscapeIntermediate
    case ControlSequence => Csi
    case CommandString => Osc
    case DeviceString => Dcs
    case PlainString => SosPmApc
  }

  lemma {:induction false} InsideStep(kind: Kind, b: u8)
    requires kind != Short && b != ESC
    ensures Advance(Inside(kind), b) == if Ends(kind, b) then Ground else Inside(kind)
  {
  }

  lemma {:induction false} EscapeStep(b: u8)
    requires b != ESC
    ensures Advance(Escape, b) == if Passed(b) then Escape else if KindOf(b) == Short then Ground else Inside(KindOf(b))
  {
  }

  lemma {:induction false} TextStep(b: u8)
    ensures Advance(Ground, b) == if b == ESC then Escape else Ground
  {
  }

  lemma {:induction false} TailOf(t: Bytes, k: nat)
    requires ESC !in t && k <= |t|
    ensures ESC !in t[k..] && forall i | 0 <= i < |t| :: t[i] != ESC
  {
  }

  /** Past the opening byte: ground exactly when an ending byte has been seen. */
  lemma {:induction false} InsideIff(kind: Kind, t: Bytes)
    requires kind != Short && ESC !in t
    ensures AdvanceAll(Inside(kind), t) == Ground <==> exists j | 0 <= j < |t| :: Ends(kind, t[j])
    decreases |t|
  {
    hide Advance, Ends, Inside;
    if t == [] {
      InsideIsNotGround(kind);
    } else {
      TailOf(t, 1);
      InsideStep(kind, t[0]);
      if Ends(kind, t[0]) {
        GroundHolds(t[1..]);
      } else {
        InsideIff(kind, t[1..]);
        if j :| 0 <= j < |t| && Ends(kind, t[j]) { assert t[1..][j - 1] == t[j]; }
      }
    }
  }

  lemma {:induction false} InsideIsNotGround(kind: Kind)
    requires kind != Short
    ensures Inside(kind) != Ground
  {
  }

  /** An opening byte and, unless it stands alone, an ending byte behind it. */
  predicate ClosedFrom(t: Bytes, i: nat) {
    Opens(t, i) && (KindOf(t[i]) == Short || exists j | i < j < |t| :: Ends(KindOf(t[i]), t[j]))
  }

  predicate Closed(t: Bytes) {
    exists i: nat | i < |t| :: ClosedFrom(t, i)
  }

  lemma {:induction false} OpenedIff(t: Bytes)
    requires ESC !in t && t != [] && !Passed(t[0])
    ensures AdvanceAll(Escape, t) == Ground <==> Closed(t)
  {
    hide Advance, Ends, Inside, Passed, KindOf;
    TailOf(t, 1);
    EscapeStep(t[0]);
    assert Opens(t, 0);
    if KindOf(t[0]) == Short {
      GroundHolds(t[1..]);
      assert ClosedFrom(t, 0);
    } else {
      InsideIff(KindOf(t[0]), t[1..]);
      if AdvanceAll(Escape, t) == Ground {
        var j :| 0 <= j < |t[1..]| && Ends(KindOf(t[0]), t[1..][j]);
        assert t[1..][j] == t[j + 1];
        assert ClosedFrom(t, 0);
      }
      if Closed(t) {
        var i: nat :| i < |t| && ClosedFrom(t, i);
        assert i == 0;
        var j :| 0 < j < |t| && Ends(KindOf(t[0]), t[j]);
        assert t[1..][j - 1] == t[j];
      }
    }
  }

  lemma {:induction false} ClosedPast(t: Bytes)
    requires t != [] && Passed(t[0])
    ensures Closed(t) <==> Closed(t[1..])
  {
    hide Ends, Passed, KindOf;
    var u := t[1..];
    if Closed(t) {
      var i: nat :| i < |t| && ClosedFrom(t, i);
      assert u[i - 1] == t[i] && Opens(u, i - 1);
      if KindOf(t[i]) != Short {
        var j :| i < j < |t| && Ends(KindOf(t[i]), t[j]);
        assert u[j - 1] == t[j];
      }
      assert ClosedFrom(u, i - 1);
    }
    if Closed(u) {
      var i: nat :| i < |u| && ClosedFrom(u, i);
      assert u[i] == t[i + 1] && Opens(t, i + 1);
      if KindOf(u[i]) != Short {
        var j :| i < j < |u| && Ends(KindOf(u[i]), u[j]);
        assert t[j + 1] == u[j] && Ends(KindOf(t[i + 1]), t[j + 1]);
      }
      assert ClosedFrom(t, i + 1);
    }
  }

  lemma {:induction false} EscapeIff(t: Bytes)
    requires ESC !in t
    ensures AdvanceAll(Escape, t) == Ground <==> Closed(t)
    decreases |t|
  {
    hide Advance, Ends, Inside, Passed, KindOf, Closed;
    if t == [] {
      assert !Closed(t) by { NothingCloses(); }
    } else if Passed(t[0]) {
      TailOf(t, 1);
      EscapeStep(t[0]);
      ClosedPast(t);
      EscapeIff(t[1..]);
    } else {
      OpenedIff(t);
    }
  }

  lemma {:induction false} NothingCloses()
    ensures !Closed([])
  {
  }

  /** Seeing an opening and an ending byte is having a complete sequence in front. */
  lemma {:induction false} ClosedIsComplete(t: Bytes)
    requires ESC !in t
    ensures Closed(t) <==> exists k: nat | k <= |t| :: Complete(t[..k])
  {
    hide Ends, Passed, KindOf;
    if Closed(t) {
      var i: nat :| i < |t| && ClosedFrom(t, i);
      if KindOf(t[i]) == Short {
        assert CompleteFrom(t[..i + 1], i);
      } else {
        var j := FirstEnd(t, KindOf(t[i]), i + 1);
        assert CompleteFrom(t[..j + 1], i);
      }
    }
    if k: nat :| k <= |t| && Complete(t[..k]) {
      var i: nat :| i < k && CompleteFrom(t[..k], i);
      assert t[..k][i] == t[i] && Opens(t, i);
      if KindOf(t[i]) != Short { assert Ends(KindOf(t[i]), t[k - 1]); }
      assert ClosedFrom(t, i);
    }
  }

  lemma {:induction false} FirstEnd(t: Bytes, kind: Kind, from: nat) returns (j: nat)
    requires exists j | from <= j < |t| :: Ends(kind, t[j])
    ensures from <= j < |t| && Ends(kind, t[j]) && forall k | from <= k < j :: !Ends(kind, t[k])
    decreases |t| - from
  {
    if Ends(kind, t[from]) { j := from; } else { j := FirstEnd(t, kind, from + 1); }
  }

  // ---- the whole stream ----

  lemma {:induction false} FindLastEscape(bytes: Bytes) returns (e: nat)
    requires ESC in bytes
    ensures LastEscape(bytes, e)
    decreases |bytes|
  {
    var n := |bytes| - 1;
    if bytes[n] == ESC {
      e := n;
    } else {
      assert bytes == bytes[..n] + [bytes[n]];
      e := FindLastEscape(bytes[..n]);
      assert bytes[e + 1..] == bytes[..n][e + 1..] + [bytes[n]];
    }
  }

  lemma {:induction false} FromLastEscape(bytes: Bytes, e: nat)
    requires LastEscape(bytes, e)
    ensures AdvanceAll(Ground, bytes) == AdvanceAll(Escape, bytes[e + 1..])
  {
    hide Advance;
    AdvanceSplit(Ground, bytes[..e], bytes[e..]);
    assert bytes[..e] + bytes[e..] == bytes && bytes[e..][0] == ESC && bytes[e..][1..] == bytes[e + 1..];
    EscapeRestarts(AdvanceAll(Ground, bytes[..e]));
  }

  lemma {:induction false} EscapeRestarts(s: SeqState)
    ensures Advance(s, ESC) == Escape
  {
  }

  lemma {:induction false} OutsideFrom(bytes: Bytes, e: nat, t: Bytes)
    requires LastEscape(bytes, e) && t == bytes[e + 1..]
    ensures Outside(bytes) <==> exists k: nat | k <= |t| :: Complete(t[..k])
  {
    hide Complete;
    if Outside(bytes) {
      var e': nat, k: nat :| LastEscape(bytes, e') && CompleteBetween(bytes, e', k);
      assert e' == e;
      assert t[..k - e - 1] == bytes[e + 1..k];
    }
    if k: nat :| k <= |t| && Complete(t[..k]) {
      assert t[..k] == bytes[e + 1..e + 1 + k];
      assert CompleteBetween(bytes, e, e + 1 + k);
    }
  }

  /**
    * The tracker is at ground exactly when the bytes end outside any sequence: they hold no ESC, or their last ESC
    * begins a complete sequence of the grammar.
    */
  lemma {:induction false} GroundIff(bytes: Bytes)
    ensures AdvanceAll(Ground, bytes) == Ground <==> Outside(bytes)
  {
    hide AdvanceAll, Complete, Closed;
    if ESC in bytes {
      var e := FindLastEscape(bytes);
      FromLastEscape(bytes, e);
      EscapeIff(bytes[e + 1..]);
      ClosedIsComplete(bytes[e + 1..]);
      OutsideFrom(bytes, e, bytes[e + 1..]);
    } else {
      GroundHolds(bytes);
    }
  }

  // ---- one sequence ----

  /** No complete sequence is the beginning of another. */
  lemma {:induction false} PrefixFree(x: Bytes, k: nat)
    requires Complete(x) && k < |x| && ESC !in x
    ensures !Complete(x[..k])
  {
    hide Ends, Passed, KindOf;
    var i: nat :| i < |x| && CompleteFrom(x, i);
    forall i': nat | i' < k ensures !CompleteFrom(x[..k], i') {
      assert x[..k][i'] == x[i'] && x[..k][k - 1] == x[k - 1];
      assert Opens(x[..k], i') ==> i' == i;
    }
  }

  /** A complete sequence returns to ground with its last byte and with none before it. */
  lemma {:induction false} SequenceReturns(x: Bytes, k: nat)
    requires Complete(x) && ESC !in x && k < |x|
    ensures AdvanceAll(Ground, [ESC] + x) == Ground && AdvanceAll(Ground, [ESC] + x[..k]) != Ground
  {
    hide AdvanceAll, Complete;
    var all, part := [ESC] + x, [ESC] + x[..k];
    GroundIff(all);
    assert x == all[1..] == all[0 + 1..|all|];
    assert LastEscape(all, 0) && CompleteBetween(all, 0, |all|);
    GroundIff(part);
    assert x[..k] == part[1..] && LastEscape(part, 0);
    OutsideFrom(part, 0, x[..k]);
    forall m: nat | m <= k ensures !Complete(x[..k][..m]) {
      assert x[..k][..m] == x[..m];
      PrefixFree(x, m);
    }
  }

  predicate Within(s: Bytes, low: u8, high: u8) {
    forall i | 0 <= i < |s| :: low <= s[i] <= high
  }

  /** CSI: parameters and intermediates, then one final byte. */
  lemma {:induction false} ControlSequenceReturns(p: Bytes, f: u8, k: nat)
    requires Within(p, 0x20, 0x3f) && 0x40 <= f <= 0x7e && k < |p| + 2
    ensures var x := [0x5b] + p + [f];
            AdvanceAll(Ground, [ESC] + x) == Ground && AdvanceAll(Ground, [ESC] + x[..k]) != Ground
  {
    hide AdvanceAll;
    var x := [0x5b] + p + [f];
    assert CompleteFrom(x, 0);
    SequenceReturns(x, k);
  }

  /** ESC, any intermediates, and a final byte that opens nothing itself. */
  lemma {:induction false} EscapeReturns(p: Bytes, f: u8, k: nat)
    requires Within(p, 0x20, 0x2f) && 0x30 <= f <= 0x7e && k < |p| + 1
    requires p == [] ==> f !in {0x50, 0x58, 0x5b, 0x5d, 0x5e, 0x5f}
    ensures var x := p + [f]; AdvanceAll(Ground, [ESC] + x) == Ground && AdvanceAll(Ground, [ESC] + x[..k]) != Ground
  {
    hide AdvanceAll;
    var x := p + [f];
    assert CompleteFrom(x, 0);
    SequenceReturns(x, k);
  }

  /** A body in which nothing ends or restarts the string. */
  predicate Body(kind: Kind, s: Bytes) {
    forall i | 0 <= i < |s| :: s[i] != ESC && !Ends(kind, s[i])
  }

  /** OSC ended by BEL, DCS ended by 0x9c, and any of them by CAN or SUB. */
  lemma {:induction false} StringReturns(lead: u8, s: Bytes, end: u8, k: nat)
    requires KindOf(lead) in {CommandString, DeviceString, PlainString} && Body(KindOf(lead), s)
    requires Ends(KindOf(lead), end) && end != ESC && k < |s| + 2
    ensures var x := [lead] + s + [end];
            AdvanceAll(Ground, [ESC] + x) == Ground && AdvanceAll(Ground, [ESC] + x[..k]) != Ground
  {
    hide AdvanceAll;
    var x := [lead] + s + [end];
    assert CompleteFrom(x, 0);
    SequenceReturns(x, k);
  }

  /** The same strings ended by ESC and a backslash: nothing before the backslash is ground. */
  lemma {:induction false} TerminatedStringReturns(lead: u8, s: Bytes, k: nat)
    requires KindOf(lead) in {CommandString, DeviceString, PlainString} && Body(KindOf(lead), s)
    requires 0 < k < |s| + 4
    ensures var x := [ESC, lead] + s + [ESC, 0x5c];
            AdvanceAll(Ground, x) == Ground && AdvanceAll(Ground, x[..k]) != Ground
  {
    hide AdvanceAll;
    var x := [ESC, lead] + s + [ESC, 0x5c];
    assert CompleteFrom([0x5c], 0);
    SequenceReturns([0x5c], 0);
    AdvanceSplit(Ground, [ESC, lead] + s, [ESC, 0x5c]);
    assert x == [ESC, lead] + s + [ESC, 0x5c];
    GroundIff(x);
    assert x[|s| + 3..|s| + 4] == [0x5c];
    assert LastEscape(x, |s| + 2) && CompleteBetween(x, |s| + 2, |s| + 4);
    UnterminatedStays(lead, s, k);
  }

  /** No beginning of a string without its end is a complete sequence. */
  lemma {:induction false} OpenStringIsIncomplete(lead: u8, s: Bytes, t: Bytes)
    requires KindOf(lead) in {CommandString, DeviceString, PlainString} && Body(KindOf(lead), s)
    requires |t| <= |s| + 1 && t == ([lead] + s)[..|t|]
    ensures !Complete(t)
  {
    hide Ends;
    forall i: nat | i < |t| ensures !CompleteFrom(t, i) {
      assert t[0] == lead && (|t| >= 2 ==> t[|t| - 1] == s[|t| - 2]);
      assert Opens(t, i) ==> i == 0;
    }
  }

  lemma {:induction false} UnterminatedStays(lead: u8, s: Bytes, k: nat)
    requires KindOf(lead) in {CommandString, DeviceString, PlainString} && Body(KindOf(lead), s)
    requires 0 < k < |s| + 4
    ensures AdvanceAll(Ground, ([ESC, lead] + s + [ESC, 0x5c])[..k]) != Ground
  {
    hide AdvanceAll, Ends, Complete, Outside;
    var part := ([ESC, lead] + s + [ESC, 0x5c])[..k];
    if k == |s| + 3 {
      assert part == [ESC, lead] + s + [ESC];
      AbortReturns([ESC, lead] + s, ESC);
    } else {
      var t := part[1..];
      assert t == ([lead] + s)[..k - 1];
      GroundIff(part);
      LoneEscape(lead, s, k, part);
      OutsideFrom(part, 0, t);
      forall m: nat | m <= |t| ensures !Complete(t[..m]) {
        assert t[..m] == ([lead] + s)[..m];
        OpenStringIsIncomplete(lead, s, t[..m]);
      }
    }
  }

  lemma {:induction false} LoneEscape(lead: u8, s: Bytes, k: nat, part: Bytes)
    requires lead != ESC && (forall i | 0 <= i < |s| :: s[i] != ESC) && 0 < k <= |s| + 2
    requires part == ([ESC, lead] + s + [ESC, 0x5c])[..k]
    ensures LastEscape(part, 0)
  {
  }

  /** CAN and SUB return to ground from anywhere, and ESC always leaves it. */
  lemma {:induction false} AbortReturns(bytes: Bytes, b: u8)
    requires b in {CAN, SUB, ESC}
    ensures AdvanceAll(Ground, bytes + [b]) == Ground <==> b != ESC
  {
    hide AdvanceAll, Complete;
    var all := bytes + [b];
    GroundIff(all);
    if b == ESC {
      assert LastEscape(all, |bytes|);
      OutsideFrom(all, |bytes|, []);
      assert !Complete([]) by { NothingCompletes(); }
    } else if ESC in all {
      var e := FindLastEscape(all);
      var t := all[e + 1..];
      OutsideFrom(all, e, t);
      AbortCompletes(t);
    }
  }

  lemma {:induction false} NothingCompletes()
    ensures !Complete([])
  {
  }

  lemma {:induction false} AbortCompletes(t: Bytes)
    requires t != [] && t[|t| - 1] in {CAN, SUB} && ESC !in t
    ensures exists k: nat | k <= |t| :: Complete(t[..k])
  {
    hide KindOf;
    ClosedIsComplete(t);
    var i := FirstSignificant(t, 0);
    if KindOf(t[i]) != Short {
      assert i < |t| - 1 by { AbortIsShort(); }
      assert Ends(KindOf(t[i]), t[|t| - 1]);
    }
    assert ClosedFrom(t, i);
  }

  lemma {:induction false} AbortIsShort()
    ensures KindOf(CAN) == Short && KindOf(SUB) == Short
  {
  }

  lemma {:induction false} FirstSignificant(t: Bytes, from: nat) returns (i: nat)
    requires from < |t| && t[|t| - 1] in {CAN, SUB} && ESC !in t && forall j | 0 <= j < from :: Passed(t[j])
    ensures Opens(t, i)
    decreases |t| - from
  {
    if Passed(t[from]) { i := FirstSignificant(t, from + 1); } else { i := from; }
  }
}
