/**
 The fixed-width integers the program computes with, and the smaller and the larger of two.
 */
module Words {

  const MIN_INT64: int := -0x8000_0000_0000_0000
  const MAX_INT64: int := 0x7fff_ffff_ffff_ffff
  const TWO_64: nat := 0x1_0000_0000_0000_0000

  type byte = x: int | 0 <= x < 256
  type u16 = x: int | 0 <= x < 0x1_0000
  type u64 = x: int | 0 <= x < TWO_64
  type int64 = x: int | MIN_INT64 <= x <= MAX_INT64

  function Min(a: int, b: int): int { if a < b then a else b }

  function Max(a: int, b: int): int { if a < b then b else a }

  /** Two's-complement wrap of an exact result. */
  function Wrap(x: int): int64 {
    (x - MIN_INT64) % TWO_64 + MIN_INT64
  }
}
