/** Rust's primitive integer types, as ranges of Dafny's unbounded integers,
    and the `Option` enum of Rust's prelude.

    Rust panics on arithmetic overflow in a debug build, so the model never
    wraps: every operation that could leave its type states the range it
    needs as a precondition. */
module Prim {

  const U8_MAX: int := 0xFF
  const I32_MIN: int := -0x8000_0000
  const I32_MAX: int := 0x7FFF_FFFF
  const U32_MAX: int := 0xFFFF_FFFF
  const U64_MAX: int := 0xFFFF_FFFF_FFFF_FFFF

  type u8 = x: int | 0 <= x <= U8_MAX
  type i32 = x: int | I32_MIN <= x <= I32_MAX
  type u32 = x: int | 0 <= x <= U32_MAX
  type u64 = x: int | 0 <= x <= U64_MAX

  /** One byte of a UTF-8 encoded string. */
  type byte = u8

  /** `Option<T>`: `Some(value)` or `None`. */
  datatype Option<T> = None | Some(value: T) {

    /** `unwrap_or(default)`: the carried value, or `default` for `None`. */
    function UnwrapOr(default: T): (r: T)
      ensures Some? ==> r == value
      ensures None? ==> r == default
    {
      match this
      case Some(v) => v
      case None => default
    }
  }
}
