/** Decimal parameters (src/grid/serialize.rs, `write_u16`). */
module Decimal {
  import opened Basics

  predicate IsDigit(b: u8) {
    0x30 <= b <= 0x39
  }

  /** The number a digit string denotes, read left to right. */
  function Value(ds: seq<u8>): int {
    if ds == [] then 0 else Value(ds[..|ds| - 1]) * 10 + (ds[|ds| - 1] as int - 0x30)
  }

  function Pow10(n: nat): (p: int)
    ensures p >= 1
  {
    if n == 0 then 1 else 10 * Pow10(n - 1)
  }

  /** The canonical form: digits only, no leading zero unless the number is zero. */
  predicate Canonical(ds: seq<u8>) {
    && 1 <= |ds| <= 5
    && (forall i | 0 <= i < |ds| :: IsDigit(ds[i]))
    && (ds[0] == 0x30 ==> |ds| == 1)
  }

  lemma {:induction false} ValuePrepend(d: u8, ds: seq<u8>)
    ensures Value([d] + ds) == (d - 0x30) * Pow10(|ds|) + Value(ds)
    decreases |ds|
  {
    if ds == [] {
      assert [d] + ds == [d] && [d][..0] == [];
      assert Value([d]) == Value([]) * 10 + (d - 0x30);
    } else {
      var front, last := ds[..|ds| - 1], ds[|ds| - 1];
      ValuePrepend(d, front);
      assert ([d] + ds)[..|ds|] == [d] + front;
      Scale(d - 0x30, Pow10(|front|), Value(front));
    }
  }

  lemma {:induction false} Scale(a: int, p: int, v: int)
    ensures (a * p + v) * 10 == a * (10 * p) + v * 10
  {
  }

  lemma {:induction false} Peel(n: int, p: int, v: int)
    requires n >= 0
    ensures n * p + v == (n / 10) * (10 * p) + ((n % 10) * p + v)
  {
    var q, r := n / 10, n % 10;
    assert n == 10 * q + r;
    assert (10 * q + r) * p == q * (10 * p) + r * p;
  }

  /** Digits are written from the back of a five-byte buffer; what comes out denotes the number, canonically. */
  method WriteU16(out: seq<u8>, value: u16) returns (out': seq<u8>)
    ensures |out'| >= |out| && out'[..|out|] == out
    ensures Canonical(out'[|out|..]) && Value(out'[|out|..]) == value
  {
    hide Value, Pow10;
    var buf := new u8[5](_ => 0);
    var i := 5;
    var n: u16 := value;
    assert buf[5..] == [] && Value([]) == 0 && Pow10(0) == 1 && n < Pow10(5) by { Constants(); }
    while true
      invariant 1 <= i <= 5 && n < Pow10(i)
      invariant n * Pow10(5 - i) + Value(buf[i..]) == value
      invariant forall k | i <= k < 5 :: IsDigit(buf[k])
      invariant i < 5 ==> n > 0
      decreases i
    {
      var d: u8 := 0x30 + n % 10;
      ghost var rest := buf[i..];
      Peel(n, Pow10(5 - i), Value(rest));
      PowStep(i);
      PowStep(6 - i);
      i := i - 1;
      buf[i] := d;
      assert buf[i..] == [d] + rest;
      ValuePrepend(d, rest);
      if n / 10 == 0 {
        assert d == 0x30 ==> n == 0;
        Zero(Pow10(5 - i));
        out' := out + buf[i..];
        assert out'[|out|..] == buf[i..];
        return;
      }
      n := n / 10;
    }
  }

  lemma {:induction false} Zero(p: int)
    ensures 0 * p == 0
  {
  }

  lemma {:induction false} PowStep(n: nat)
    requires n >= 1
    ensures Pow10(n) == 10 * Pow10(n - 1)
  {
  }

  lemma {:induction false} Constants()
    ensures Value([]) == 0 && Pow10(0) == 1 && Pow10(5) == 100000
  {
    assert Pow10(1) == 10 && Pow10(2) == 100 && Pow10(3) == 1000 && Pow10(4) == 10000;
  }

  /** Canonical strings are determined by their value, so no two numbers print alike and no number prints two ways. */
  lemma {:induction false} CanonicalIsUnique(a: seq<u8>, b: seq<u8>)
    requires Canonical(a) && Canonical(b) && Value(a) == Value(b)
    ensures a == b
    decreases |a|
  {
    var fa, fb := a[..|a| - 1], b[..|b| - 1];
    LastDigit(a);
    LastDigit(b);
    if |a| == 1 || |b| == 1 {
      ShortIsSmall(a);
      ShortIsSmall(b);
    } else {
      assert fa[0] == a[0] && fb[0] == b[0];
      CanonicalIsUnique(fa, fb);
      assert a == fa + [a[|a| - 1]] && b == fb + [b[|b| - 1]];
    }
  }

  lemma {:induction false} LastDigit(a: seq<u8>)
    requires Canonical(a)
    ensures Value(a) % 10 == a[|a| - 1] - 0x30 && Value(a) / 10 == Value(a[..|a| - 1])
  {
  }

  /** One digit means a value below ten, more digits mean ten or more. */
  lemma {:induction false} ShortIsSmall(a: seq<u8>)
    requires Canonical(a)
    ensures Value(a) >= 0 && (Value(a) < 10 <==> |a| == 1)
    ensures |a| == 1 ==> a == [0x30 + Value(a)]
    decreases |a|
  {
    var front := a[..|a| - 1];
    if |a| == 1 {
      assert front == [];
    } else {
      assert front[0] == a[0];
      ShortIsSmall(front);
      if |front| == 1 { assert Value(front) == a[0] - 0x30; }
    }
  }
}
