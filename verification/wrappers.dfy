/** Option and Result, shared by the other modules. */
module Wrappers {

  /** A value that may be absent: JavaScript's `null` / `undefined` in the original. */
  datatype Option<+T> = None | Some(value: T)

  /** The outcome of an operation that can throw: `Err` carries the error message. */
  datatype Result<+T, +E> = Ok(value: T) | Err(error: E)
}
