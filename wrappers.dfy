/** Failure-compatible value types standing in for Rust's `Option`, `Result` and `()`. */
module Wrappers {

  datatype Option<+T> = None | Some(value: T)

  datatype Result<+T, +E> = Ok(value: T) | Err(error: E)

  /** Rust's unit type `()`. */
  datatype Unit = Unit
}
