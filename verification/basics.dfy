/** Small shared vocabulary: an option type for the source's nullable
    results and the fixed-width integer ranges the source computes in. */
module Basics {

  /** A value that may be absent (the source's `null` results). */
  datatype Option<+T> = None | Some(value: T)

  const TwoTo31: int := 0x8000_0000
  const TwoTo32: int := 0x1_0000_0000
  const TwoTo63: int := 0x8000_0000_0000_0000
  const TwoTo64: int := 0x1_0000_0000_0000_0000

  const TwoTo16: int := 0x10000

  /** A C# `ushort`. */
  type UInt16 = x: int | 0 <= x < TwoTo16

  /** A C# `int`. */
  type Int32 = x: int | -TwoTo31 <= x < TwoTo31

  /** A C# `long`, the value of `IntPtr.ToInt64()`. */
  type Int64 = x: int | -TwoTo63 <= x < TwoTo63

  /** Reduces an unbounded integer to the `int` it denotes in two's complement,
      the way unchecked C# arithmetic does. */
  function WrapInt32(x: int): (r: Int32)
    ensures (x - r) % TwoTo32 == 0
    ensures -TwoTo31 <= x < TwoTo31 ==> r == x
  {
    (x + TwoTo31) % TwoTo32 - TwoTo31
  }

  /** `a - b` on C# `int`s in an unchecked context: the difference wraps
      around modulo 2^32 instead of overflowing. */
  function Sub32(a: Int32, b: Int32): (r: Int32)
    ensures (a - b - r) % TwoTo32 == 0
    ensures -TwoTo31 <= a - b < TwoTo31 ==> r == a - b
    ensures a - b >= TwoTo31 ==> r == a - b - TwoTo32
    ensures a - b < -TwoTo31 ==> r == a - b + TwoTo32
  {
    WrapInt32(a - b)
  }

  /** `n` copies of `x`. */
  function Repeat<T>(x: T, n: nat): (r: seq<T>)
    ensures |r| == n
    ensures forall i :: 0 <= i < n ==> r[i] == x
  {
    if n == 0 then [] else [x] + Repeat(x, n - 1)
  }
}
