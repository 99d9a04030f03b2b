/** Fixed-width integers and the failure-carrying wrappers shared by the model. */
module Basics {

  /** Rust's `u8`, `u32` and `u64` (a `usize` on a 64-bit target). */
  newtype uint8 = x: int | 0 <= x < 0x100
  newtype uint32 = x: int | 0 <= x < 0x1_0000_0000
  newtype uint64 = x: int | 0 <= x < 0x1_0000_0000_0000_0000

  /** Rust's `Option`. */
  datatype Option<+T> = None | Some(value: T)

  /** Rust's `Result`: a value or the error that replaced it. */
  datatype Result<+T, +E> = Ok(value: T) | Err(error: E)

  /** An operating-system or driver error; its details play no part in the model. */
  datatype IoError = IoError(code: int)
}
