/** Option and Result, the two failure-carrying shapes the model needs. */
module Wrappers {

  /** Rust's `Option` (and JavaScript's "value or nothing"). */
  datatype Option<+T> = None | Some(value: T)

  /** Rust's `Result`: a value on success, an error on failure. */
  datatype Result<+R, +E> = Success(value: R) | Failure(error: E)
}
