/** Option and Result, the two wrappers the rest of the model returns. */
module Wrappers {

  datatype Option<+T> = None | Some(value: T)

  /** A call that either returns a value or raises a Python exception. */
  datatype Result<+T, +E> = Ok(value: T) | Err(error: E)
}
