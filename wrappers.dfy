/** Option and Result, the two wrappers the model's signatures use. */
module Wrappers {

  /** Rust's `Option<T>`: a nullable column or an optional argument. */
  datatype Option<+T> = None | Some(value: T)

  /** Rust's `Result<T, E>`. */
  datatype Result<+T, +E> = Ok(value: T) | Err(error: E)
}
