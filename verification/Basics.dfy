/** Small shared vocabulary: optional values, machine bytes and 64-bit words. */
module Basics {

  datatype Option<+T> = None | Some(value: T)

  datatype Result<+T, +E> = Ok(value: T) | Err(error: E)

  const U64_MAX: nat := 0xFFFF_FFFF_FFFF_FFFF

  type U8 = x: int | 0 <= x < 0x100
  type U32 = x: int | 0 <= x < 0x1_0000_0000
  type U64 = x: int | 0 <= x <= U64_MAX

  type Bytes = seq<U8>

  function Min(a: int, b: int): (m: int)
    ensures m <= a && m <= b && (m == a || m == b)
  {
    if a <= b then a else b
  }

  function Max(a: int, b: int): (m: int)
    ensures m >= a && m >= b && (m == a || m == b)
  {
    if a >= b then a else b
  }

  /** Rust's `saturating_sub` on unsigned values. */
  function Monus(a: nat, b: nat): (m: nat)
    ensures m == Max(a - b, 0)
  {
    if a >= b then a - b else 0
  }
}
