/** The UTF-8 grammar of section 4 of RFC 3629 and the longest well-formed prefix of a byte string. */
module Utf8 {
  import opened Basics

  type Bytes = seq<u8>

  predicate Tail(b: u8) {
    0x80 <= b <= 0xBF
  }

  /** UTF8-char of the grammar: UTF8-1 / UTF8-2 / UTF8-3 / UTF8-4. */
  predicate IsChar(c: Bytes) {
    || (|c| == 1 && c[0] <= 0x7F)
    || (|c| == 2 && 0xC2 <= c[0] <= 0xDF && Tail(c[1]))
    || (|c| == 3 && SecondOfThree(c[0], c[1]) && Tail(c[2]))
    || (|c| == 4 && SecondOfFour(c[0], c[1]) && Tail(c[2]) && Tail(c[3]))
  }

  predicate SecondOfThree(a: u8, b: u8) {
    || (a == 0xE0 && 0xA0 <= b <= 0xBF)
    || (0xE1 <= a <= 0xEC && Tail(b))
    || (a == 0xED && 0x80 <= b <= 0x9F)
    || (0xEE <= a <= 0xEF && Tail(b))
  }

  predicate SecondOfFour(a: u8, b: u8) {
    || (a == 0xF0 && 0x90 <= b <= 0xBF)
    || (0xF1 <= a <= 0xF3 && Tail(b))
    || (a == 0xF4 && 0x80 <= b <= 0x8F)
  }

  /** UTF8-octets: a concatenation of characters. */
  ghost predicate WellFormed(s: Bytes)
    decreases |s|
  {
    s == [] || exists n | 1 <= n <= |s| :: IsChar(s[..n]) && WellFormed(s[n..])
  }

  /** Length of the character a byte string starts with, or 0 when it starts with none. */
  function CharLen(s: Bytes): (n: nat)
    ensures n <= |s| && n <= 4
    ensures n > 0 ==> IsChar(s[..n])
    ensures forall k | 1 <= k <= |s| && IsChar(s[..k]) :: k == n
  {
    if |s| >= 1 && IsChar(s[..1]) then 1
    else if |s| >= 2 && IsChar(s[..2]) then 2
    else if |s| >= 3 && IsChar(s[..3]) then 3
    else if |s| >= 4 && IsChar(s[..4]) then 4
    else 0
  }

  /** `Utf8Error::valid_up_to`, or the whole length when there is no error. */
  function ValidUpTo(s: Bytes): (n: nat)
    ensures n <= |s|
    decreases |s|
  {
    var n := CharLen(s);
    if n == 0 then 0 else n + ValidUpTo(s[n..])
  }

  lemma {:induction false} CharLenStable(s: Bytes, w: Bytes)
    requires CharLen(s) > 0
    ensures CharLen(s + w) == CharLen(s)
  {
    var n := CharLen(s);
    assert (s + w)[..n] == s[..n];
  }

  /** Prefixes are cut only at character boundaries. */
  lemma {:induction false} ValidPrefixIsWellFormed(s: Bytes)
    ensures WellFormed(s[..ValidUpTo(s)])
    decreases |s|
  {
    var n := CharLen(s);
    if n > 0 {
      var rest := s[n..];
      ValidPrefixIsWellFormed(rest);
      var prefix := s[..ValidUpTo(s)];
      assert prefix[..n] == s[..n] && prefix[n..] == rest[..ValidUpTo(rest)];
    }
  }

  lemma {:induction false} WellFormedAppends(v: Bytes, w: Bytes)
    requires WellFormed(v)
    ensures ValidUpTo(v + w) == |v| + ValidUpTo(w)
    decreases |v|
  {
    hide CharLen, IsChar;
    if v == [] {
      assert v + w == w;
    } else {
      var n :| 1 <= n <= |v| && IsChar(v[..n]) && WellFormed(v[n..]);
      assert CharLen(v) == n;
      CharLenStable(v, w);
      WellFormedAppends(v[n..], w);
      assert (v + w)[n..] == v[n..] + w;
    }
  }

  /** `ValidUpTo` is the longest well-formed prefix. */
  lemma {:induction false} ValidUpToIsLongest(s: Bytes, k: nat)
    requires k <= |s| && WellFormed(s[..k])
    ensures k <= ValidUpTo(s) && WellFormed(s[..ValidUpTo(s)])
    ensures WellFormed(s) <==> ValidUpTo(s) == |s|
  {
    ValidPrefixIsWellFormed(s);
    WellFormedAppends(s[..k], s[k..]);
    assert s[..k] + s[k..] == s;
    if ValidUpTo(s) == |s| { assert s[..|s|] == s; }
    if WellFormed(s) {
      WellFormedAppends(s, []);
      assert s + [] == s;
    }
  }
}

/** Buffering of incomplete UTF-8 between reads (src/grid.rs, src/grid/write.rs). */
module Chunking {
  import opened Basics
  import opened Utf8

  predicate Ascii(b: u8) {
    b < 0x80
  }

  /** Where the trailing run of non-ASCII bytes begins: one past the last ASCII byte. */
  function RunStart(s: Bytes): (i: nat)
    ensures i <= |s|
    ensures forall k | i <= k < |s| :: !Ascii(s[k])
    ensures i > 0 ==> Ascii(s[i - 1])
  {
    if s == [] then 0
    else if Ascii(s[|s| - 1]) then |s|
    else RunStart(s[..|s| - 1])
  }

  /** `incomplete_utf8_suffix_len`. */
  function IncompleteSuffixLen(s: Bytes): (n: nat)
    ensures n <= |s| - RunStart(s)
  {
    if s == [] || Ascii(s[|s| - 1]) then 0
    else
      var suffix := s[RunStart(s)..];
      var valid := ValidUpTo(suffix);
      if valid == |suffix| then 0
      else if valid > 0 then |suffix| - valid
      else |suffix|
  }

  /** The bytes held back after a byte string has arrived. */
  function Held(s: Bytes): (t: Bytes)
    ensures |t| <= |s| && t == s[|s| - |t|..]
  {
    s[|s| - IncompleteSuffixLen(s)..]
  }

  /** The bytes handed on. */
  function Released(s: Bytes): (f: Bytes)
    ensures f + Held(s) == s
  {
    s[..|s| - |Held(s)|]
  }

  lemma {:induction false} HeldIs(s: Bytes)
    ensures Held(s) == s[RunStart(s) + ValidUpTo(s[RunStart(s)..])..]
  {
    if s == [] || Ascii(s[|s| - 1]) {
      assert RunStart(s) == |s|;
      assert s[|s|..] == [];
    } else {
      hide ValidUpTo, RunStart;
      var i := RunStart(s);
      assert IncompleteSuffixLen(s) == |s| - i - ValidUpTo(s[i..]);
    }
  }

  lemma {:induction false} RunStartUnique(s: Bytes, i: nat)
    requires i <= |s| && (forall k | i <= k < |s| :: !Ascii(s[k])) && (i > 0 ==> Ascii(s[i - 1]))
    ensures RunStart(s) == i
  {
  }

  /** What is held back depends on the earlier bytes only through what they held back. */
  lemma {:induction false} HeldCarries(a: Bytes, b: Bytes)
    ensures Held(Held(a) + b) == Held(a + b)
  {
    hide Held, ValidUpTo, RunStart;
    HeldIs(a);
    HeldIs(a + b);
    HeldIs(Held(a) + b);
    if RunStart(b) > 0 {
      HeldAfterAscii(a, b);
      HeldAfterAscii(Held(a), b);
    } else {
      HeldInRun(a, b);
    }
  }

  lemma {:induction false} HeldAfterAscii(a: Bytes, b: Bytes)
    requires RunStart(b) > 0
    ensures Held(a + b) == Held(b)
  {
    hide Held, ValidUpTo, RunStart;
    HeldIs(b);
    HeldIs(a + b);
    var s, i := a + b, RunStart(b);
    RunStartUnique(s, |a| + i);
    assert s[|a| + i..] == b[i..];
    var n := i + ValidUpTo(b[i..]);
    assert s[|a| + n..] == b[n..];
  }

  lemma {:induction false} HeldInRun(a: Bytes, b: Bytes)
    requires RunStart(b) == 0
    ensures Held(Held(a) + b) == Held(a + b)
  {
    hide Held, ValidUpTo, RunStart, WellFormed;
    var i := RunStart(a);
    var n := ValidUpTo(a[i..]);
    var v, t := a[i..][..n], a[i + n..];
    HeldIs(a);
    RunStartUnique(t + b, 0);
    RunStartUnique(a + b, i);
    HeldIs(t + b);
    HeldIs(a + b);
    ValidPrefixIsWellFormed(a[i..]);
    WellFormedAppends(v, t + b);
    var m := ValidUpTo(t + b);
    assert (t + b)[0..] == t + b;
    Slices(a, b, i, n, m);
  }

  lemma {:induction false} Slices(a: Bytes, b: Bytes, i: nat, n: nat, m: nat)
    requires i + n <= |a| && m <= |a| - i - n + |b|
    ensures (a + b)[i..] == a[i..][..n] + (a[i + n..] + b)
    ensures (a + b)[i + (n + m)..] == (a[i + n..] + b)[m..]
  {
  }

  // ---- the whole stream ----

  datatype Feed = Feed(handed: Bytes, pending: Bytes)

  /** `process` on the parser's input and the pending buffer. */
  function Process(f: Feed, bytes: Bytes): Feed {
    if bytes == [] then f
    else
      var combined := f.pending + bytes;
      Feed(f.handed + Released(combined), Held(combined))
  }

  function ProcessAll(f: Feed, chunks: seq<Bytes>): Feed {
    if chunks == [] then f else Process(ProcessAll(f, chunks[..|chunks| - 1]), chunks[|chunks| - 1])
  }

  function Concat(chunks: seq<Bytes>): Bytes {
    if chunks == [] then [] else Concat(chunks[..|chunks| - 1]) + chunks[|chunks| - 1]
  }

  /** What has happened to a stream read from the start: everything released was handed on, the rest is pending. */
  function Settled(total: Bytes): Feed {
    Feed(Released(total), Held(total))
  }

  lemma {:induction false} ProcessSettles(total: Bytes, bytes: Bytes)
    ensures Process(Settled(total), bytes) == Settled(total + bytes)
  {
    hide Held, Released;
    if bytes == [] {
      assert total + bytes == total;
    } else {
      HeldCarries(total, bytes);
      ReleasedCarries(total, bytes);
    }
  }

  lemma {:induction false} CutSuffix(a: Bytes, b: Bytes, s: Bytes)
    requires a + b == s
    ensures a == s[..|s| - |b|]
  {
  }

  lemma {:induction false} ReleasedCarries(a: Bytes, b: Bytes)
    ensures Released(a) + Released(Held(a) + b) == Released(a + b)
  {
    hide Held;
    HeldCarries(a, b);
    var h := Held(a + b);
    assert Released(a) + Held(a) == a;
    assert Released(Held(a) + b) + h == Held(a) + b;
    assert (Released(a) + Released(Held(a) + b)) + h == a + b;
    CutSuffix(Released(a) + Released(Held(a) + b), h, a + b);
  }

  /**
    * Chunk independence: however a byte stream is split, the parser has seen the same prefix of it and the same tail is
    * pending.
    */
  lemma {:induction false} ChunkIndependence(chunks: seq<Bytes>)
    ensures ProcessAll(Feed([], []), chunks) == Settled(Concat(chunks))
    decreases |chunks|
  {
    hide Held, Released, Process;
    if chunks == [] {
      NothingSettles();
    } else {
      ChunkIndependence(chunks[..|chunks| - 1]);
      ProcessSettles(Concat(chunks[..|chunks| - 1]), chunks[|chunks| - 1]);
    }
  }

  lemma {:induction false} NothingSettles()
    ensures Settled([]) == Feed([], [])
  {
  }

  // ---- how much is held back ----

  /** Cutting a well-formed string leaves fewer than four bytes past the last boundary of the cut. */
  lemma {:induction false} CutRemainder(s: Bytes, w: Bytes)
    requires WellFormed(s + w)
    ensures |s| - ValidUpTo(s) <= 3
    ensures w == [] ==> ValidUpTo(s) == |s|
    decreases |s|
  {
    hide IsChar, CharLen;
    if s != [] {
      var all := s + w;
      var n :| 1 <= n <= |all| && IsChar(all[..n]) && WellFormed(all[n..]);
      assert n <= 4 by { CharIsShort(all[..n]); }
      if n <= |s| {
        CutHead(s, w, n);
        CutRemainder(s[n..], w);
        assert ValidUpTo(s) == n + ValidUpTo(s[n..]);
      }
    }
  }

  lemma {:induction false} CharIsShort(c: Bytes)
    requires IsChar(c)
    ensures |c| <= 4
  {
  }

  lemma {:induction false} CutHead(s: Bytes, w: Bytes, n: nat)
    requires 1 <= n <= |s| && IsChar((s + w)[..n])
    ensures CharLen(s) == n && (s + w)[n..] == s[n..] + w
  {
    hide IsChar;
    assert s[..n] == (s + w)[..n];
  }

  /** On a prefix of a well-formed stream at most three bytes wait; none wait when the stream ends there. */
  lemma {:induction false} TextHoldsLittle(s: Bytes, w: Bytes)
    requires WellFormed(s + w)
    ensures |Held(s)| <= 3 && (w == [] ==> Held(s) == [])
  {
    HeldIs(s);
    var i := RunStart(s);
    assert s[i..] + w == (s + w)[i..];
    SuffixAtAscii(s + w, i);
    CutRemainder(s[i..], w);
  }

  /** One past an ASCII byte is a character boundary. */
  lemma {:induction false} SuffixAtAscii(s: Bytes, i: nat)
    requires WellFormed(s) && i <= |s| && (i > 0 ==> Ascii(s[i - 1]))
    ensures WellFormed(s[i..])
    decreases |s|
  {
    if i > 0 {
      var n :| 1 <= n <= |s| && IsChar(s[..n]) && WellFormed(s[n..]);
      assert forall k | 0 <= k < n :: s[..n][k] == s[k];
      assert n <= i;
      SuffixAtAscii(s[n..], i - n);
      assert s[n..][i - n..] == s[i..];
    } else {
      assert s[i..] == s;
    }
  }

  /** A character does not reach past an ASCII byte it does not end with. */
  lemma {:induction false} CharStopsAtAscii(s: Bytes, n: nat, i: nat)
    requires 1 <= n <= |s| && IsChar(s[..n]) && 0 < i <= |s| && Ascii(s[i - 1])
    ensures n <= i
  {
    assert forall k | 0 <= k < n :: s[..n][k] == s[k];
  }

  lemma {:induction false} CharInFront(n: nat, p: Bytes)
    requires 1 <= n <= |p| && IsChar(p[..n]) && WellFormed(p[n..])
    ensures WellFormed(p)
  {
  }

  lemma {:induction false} PrefixAtAscii(s: Bytes, i: nat)
    requires WellFormed(s) && i <= |s| && (i > 0 ==> Ascii(s[i - 1]))
    ensures WellFormed(s[..i])
    decreases |s|
  {
    hide IsChar;
    if i > 0 {
      var n :| 1 <= n <= |s| && IsChar(s[..n]) && WellFormed(s[n..]);
      CharStopsAtAscii(s, n, i);
      PrefixAtAscii(s[n..], i - n);
      var p := s[..i];
      assert p[..n] == s[..n];
      assert p[n..] == s[n..][..i - n];
      CharInFront(n, p);
    }
  }

  /** On a prefix of a well-formed stream exactly the whole characters are handed on. */
  lemma {:induction false} TextReleasesWholeCharacters(s: Bytes, w: Bytes)
    requires WellFormed(s + w)
    ensures Released(s) == s[..ValidUpTo(s)] && WellFormed(Released(s))
  {
    hide Held, ValidUpTo, RunStart, WellFormed;
    var i := RunStart(s);
    HeldIs(s);
    assert (s + w)[..i] == s[..i];
    PrefixAtAscii(s + w, i);
    WellFormedAppends(s[..i], s[i..]);
    assert s[..i] + s[i..] == s;
    ValidPrefixIsWellFormed(s);
  }

  /**
    * On any bytes, well formed or not, what waits is what follows the whole characters of the trailing run of non-ASCII
    * bytes; an ASCII byte hands everything on.
    */
  lemma {:induction false} OnlyARunWaits(a: Bytes, run: Bytes)
    requires (a == [] || Ascii(a[|a| - 1])) && forall k | 0 <= k < |run| :: !Ascii(run[k])
    ensures Held(a + run) == run[ValidUpTo(run)..]
  {
    hide Held, ValidUpTo, RunStart;
    HeldIs(a + run);
    RunStartUnique(a + run, |a|);
    assert (a + run)[|a|..] == run;
  }
}
