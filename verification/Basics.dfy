/** Shared vocabulary: fixed-width integers, options, and clamped arithmetic. */
module Basics {

  type u8 = x: int | 0 <= x < 0x100
  type u16 = x: int | 0 <= x < 0x1_0000

  const U16_MAX: u16 := 0xFFFF

  datatype Option<+T> = None | Some(value: T)

  function Min(a: int, b: int): int {
    if a <= b then a else b
  }

  function Max(a: int, b: int): int {
    if a >= b then a else b
  }

  /** `u16::saturating_sub`. */
  function SatSub(a: u16, b: u16): u16 {
    if a >= b then a - b else 0
  }

  /** `u16::saturating_add`. */
  function SatAdd(a: u16, b: u16): u16 {
    if a + b <= 0xFFFF then a + b else 0xFFFF
  }

  /** `n` copies of one value. */
  function Repeat<T>(x: T, n: nat): (s: seq<T>)
    ensures |s| == n
    ensures forall i | 0 <= i < n :: s[i] == x
  {
    seq(n, i => x)
  }

  /** The last `limit` elements, or everything when there are fewer. */
  function KeepLast<T>(s: seq<T>, limit: nat): (t: seq<T>)
    ensures |t| <= limit && |t| <= |s|
    ensures t == s[|s| - |t|..]
  {
    if |s| <= limit then s else s[|s| - limit..]
  }
}
