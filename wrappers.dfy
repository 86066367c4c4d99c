/** The optional value and the success-or-error value used across the model. */
module Wrappers {

  /** A value that may be absent: JavaScript's `null`/`undefined` next to a value. */
  datatype Option<+T> = None | Some(value: T)

  /** The outcome of an operation that can fail, as a thrown error or a rejected promise does. */
  datatype Result<+T, +E> = Ok(value: T) | Err(error: E)
}
