/** Option and Result values used across the model. */
module Wrappers {

  /** An optional value: JavaScript's `undefined` is `None`. */
  datatype Option<+T> = None | Some(value: T)

  /** A value, or the message of the exception the code throws instead of returning one. */
  datatype Result<+T> = Ok(value: T) | Err(message: string)
}
