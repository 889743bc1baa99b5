/** The Rust primitive integer types the board code works with, the casts it
    applies to them, and the two outcomes of a call that may panic. */
module Primitives {

  /** `u8` */
  type U8 = x: int | 0 <= x < 0x100

  /** `u16` */
  type U16 = x: int | 0 <= x < 0x1_0000

  /** Whether a value fits in `i8`; a debug build panics on any `i8`
      operation whose result does not. */
  predicate InI8(v: int) {
    -128 <= v < 128
  }

  /** `v as i8` for an unsigned value: the low eight bits read as two's complement. */
  function AsI8(v: nat): (r: int)
    ensures InI8(r)
    ensures v < 128 ==> r == v
    ensures 128 <= v < 256 ==> r == v - 256
  {
    var low := v % 256;
    if low < 128 then low else low - 256
  }

  /** `as i8` keeps the value modulo 256. */
  lemma AsI8Wraps(v: nat)
    ensures (AsI8(v) - v) % 256 == 0
  {
    var low := v % 256;
    assert v == 256 * (v / 256) + low;
  }

  /** `v as u8` for an `i8` value: the same eight bits read as unsigned. */
  function I8AsU8(v: int): (r: U8)
    requires InI8(v)
    ensures 0 <= v ==> r == v
    ensures v < 0 ==> r == v + 256
  {
    v % 256
  }

  datatype Option<T> = None | Some(value: T)

  /** The result of a call that either returns a value or panics (an index
      out of bounds, which aborts in every build). */
  datatype Outcome<T> = Ok(value: T) | Panic
}
