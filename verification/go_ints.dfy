/** Go's fixed-width integer types, as subset types of the unbounded `int`. */
module GoInts {

  const TwoTo63: int := 0x8000_0000_0000_0000
  const TwoTo64: int := 0x1_0000_0000_0000_0000

  /** One byte of a Go `[]byte`. */
  type byte = x: int | 0 <= x < 256

  /** Go `uint32`. */
  type U32 = x: int | 0 <= x < 0x1_0000_0000

  /** Go `uint64`. */
  type U64 = x: int | 0 <= x < TwoTo64

  /** Go `int` (64 bits on the platforms the node targets). */
  type I64 = x: int | -TwoTo63 <= x < TwoTo63

  /** The result of Go's `len` on a slice: a non-negative `int`. */
  type Len = x: int | 0 <= x < TwoTo63

  /** Go's conversion `uint64(x)` of an `int`: the same 64 bits read as unsigned. */
  function ToU64(x: I64): (r: U64)
    ensures 0 <= x ==> r == x
    ensures x < 0 ==> r - x == TwoTo64
  {
    if x < 0 then x + TwoTo64 else x
  }

  /** Go's `a += b` on a `uint64` accumulator: the sum wraps modulo 2^64. */
  function AddU64(a: U64, b: nat): (r: U64)
    ensures a + b < TwoTo64 ==> r == a + b
  {
    (a + b) % TwoTo64
  }
}
