/** Option and Result values shared by the modules of this model. */
module Results {

  datatype Option<+T> = None | Some(value: T)

  /** A Go `(value, error)` pair: exactly one of the two is meaningful. */
  datatype Result<+T, +E> = Ok(value: T) | Err(error: E)
}

/** Go's fixed-width integers. `int` is 64 bits wide on the platforms the tool runs on. */
module GoInts {

  const MinInt32: int := -0x8000_0000
  const MaxInt32: int := 0x7fff_ffff
  const MinInt64: int := -0x8000_0000_0000_0000
  const MaxInt64: int := 0x7fff_ffff_ffff_ffff

  type int32 = x: int | MinInt32 <= x <= MaxInt32
  type int64 = x: int | MinInt64 <= x <= MaxInt64

  /** Two's-complement wrap-around of a 64-bit result, as Go's `*` on `int` does. */
  function Wrap64(x: int): (r: int64)
    ensures MinInt64 <= x <= MaxInt64 ==> r == x
    ensures (r - x) % 0x1_0000_0000_0000_0000 == 0
  {
    (x - MinInt64) % 0x1_0000_0000_0000_0000 + MinInt64
  }
}
