/** Results of operations that the Rust and Python programs abort (panic or raise). */
module Outcomes {
  datatype Result<+T, +E> = Ok(value: T) | Err(error: E)

  /** An 8-bit unsigned value: a grayscale intensity or a `uint8` cell. */
  type Byte = x: int | 0 <= x < 256

  /** The largest `u32`. */
  const U32_MAX: nat := 0xFFFF_FFFF
}
