/** `Option` and `Result`, shared by the other modules. */
module Wrappers {

  /** A value that may be absent; a missing close price (NaN) is `None`. */
  datatype Option<+T> = None | Some(value: T)

  /** The outcome of an operation that can fail with an error of type `E`. */
  datatype Result<+R, +E> = Ok(value: R) | Err(error: E)
}
