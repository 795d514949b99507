/** Vocabulary shared by every component of the firmware: its fixed-width
    integers, the GPIO line level, the error type of `common/error.rs` and
    the `Result`/`Option` wrappers its functions return. */
module Common {

  /** `u8`: the width of the state bytes kept in the shared hub. */
  type U8 = x: int | 0 <= x < 0x100

  /** `u32`: the width of millisecond counters and advertising timeouts. */
  type U32 = x: int | 0 <= x < 0x1_0000_0000

  const U32_MAX: U32 := 0xFFFF_FFFF

  /** `u32::saturating_add`: clamps at `U32_MAX` instead of wrapping. */
  function SaturatingAdd(a: U32, b: U32): U32
  {
    if a + b <= U32_MAX then a + b else U32_MAX
  }

  /** The electrical level of a GPIO line. */
  datatype Level = Low | High

  /** The three categories of `ErrorType`. */
  datatype ErrorType = Esp | InvalidState | Unexpected

  /** An error: its category and the fixed part of its message. The
      adapter's own detail text, appended to the message in the firmware,
      is not modelled. */
  datatype Error = Error(kind: ErrorType, message: string)

  datatype Result<T> = Ok(value: T) | Err(error: Error)

  datatype Option<T> = None | Some(value: T)
}
