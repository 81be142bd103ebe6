/** Small shared vocabulary. */
module Basics {
  datatype Option<+T> = None | Some(value: T)

  type byte = b: int | 0 <= b < 256
  type Bytes = seq<byte>

  /** Largest value of a 32-bit unsigned integer. */
  const UINT32_MAX: int := 0xFFFF_FFFF
  /** Largest value of the platform's 32-bit int. */
  const INT_MAX: int := 0x7FFF_FFFF
  /** Smallest value of the platform's 32-bit int. */
  const INT_MIN: int := -0x8000_0000

  function Min(a: int, b: int): int {
    if a <= b then a else b
  }
}
