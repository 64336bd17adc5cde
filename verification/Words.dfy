/** Fixed-width integers of the collectors, and the 64-bit arithmetic they use. */
module Words {
  const TWO_64: int := 0x1_0000_0000_0000_0000
  const MAX_U64: u64 := 0xFFFF_FFFF_FFFF_FFFF

  type u8 = x: int | 0 <= x < 0x100
  type u32 = x: int | 0 <= x < 0x1_0000_0000
  type u64 = x: int | 0 <= x < 0x1_0000_0000_0000_0000
  type i16 = x: int | -0x8000 <= x < 0x8000
  type i32 = x: int | -0x8000_0000 <= x < 0x8000_0000

  datatype Option<+T> = None | Some(value: T)

  datatype Result<+T, +E> = Ok(value: T) | Err(error: E)

  /** The value a 64-bit counter holds after an exact integer computation. */
  function Wrap(x: int): u64 {
    x % TWO_64
  }

  lemma SmallWrap(n: nat)
    requires n < TWO_64
    ensures Wrap(n) == n
  {
  }

  function Min(x: int, y: int): int {
    if x <= y then x else y
  }

  function Max(x: int, y: int): int {
    if x >= y then x else y
  }

  /** Go's int16(...) conversion. */
  function ToI16(x: int): i16 {
    var low := x % 0x1_0000;
    if low < 0x8000 then low else low - 0x1_0000
  }

  /** Go's int32(...) conversion. */
  function ToI32(x: int): i32 {
    var low := x % 0x1_0000_0000;
    if low < 0x8000_0000 then low else low - 0x1_0000_0000
  }

  /** Addition that sticks at the largest counter value instead of wrapping. */
  function SaturatingAdd(left: u64, right: u64): (r: u64)
    ensures r == Min(left + right, MAX_U64)
  {
    if MAX_U64 - left < right then MAX_U64 else left + right
  }

  /** Wrapping can be postponed to the end of a sum. */
  lemma WrapAdd(x: int, y: int)
    ensures Wrap(Wrap(x) + y) == Wrap(x + y)
    ensures Wrap(x + Wrap(y)) == Wrap(x + y)
  {
    var q := x / TWO_64;
    assert x == TWO_64 * q + Wrap(x);
    WrapShift(Wrap(x) + y, q);
    var p := y / TWO_64;
    assert y == TWO_64 * p + Wrap(y);
    WrapShift(x + Wrap(y), p);
  }

  lemma WrapShift(x: int, k: int)
    ensures Wrap(x + TWO_64 * k) == Wrap(x)
  {
  }
}
