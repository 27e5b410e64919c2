/** Value types shared by the whole model: optional values, fallible results and
    Go's fixed-width unsigned and signed 64-bit integers. */
module Common {

  /** A Go pointer that may be nil, or a lookup that may miss. */
  datatype Option<+T> = None | Some(value: T)

  /** A Go `(value, error)` pair where exactly one side is meaningful. */
  datatype Result<+T, +E> = Ok(value: T) | Err(error: E)

  const MaxU64: int := 0xFFFF_FFFF_FFFF_FFFF
  const TwoTo63: int := 0x8000_0000_0000_0000
  const TwoTo64: int := 0x1_0000_0000_0000_0000

  /** Go's `uint64`. */
  type U64 = x: int | 0 <= x <= MaxU64

  /** Go's conversion `int64(x)` of a `uint64`: the same 64 bits read as two's
      complement, so values at or above 2^63 wrap to negative numbers. */
  function ToInt64(x: U64): (r: int)
    ensures -TwoTo63 <= r < TwoTo63
    ensures (x - r) % TwoTo64 == 0
    ensures r < 0 <==> x >= TwoTo63
    ensures x < TwoTo63 ==> r == x
  {
    if x < TwoTo63 then x else x - TwoTo64
  }
}
