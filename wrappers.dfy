/** The failure-carrying values the model uses in place of `undefined` and of thrown errors. */
module Wrappers {

  /** A value that may be absent (JavaScript's `null`/`undefined` result). */
  datatype Option<+T> = None | Some(value: T)

  /** The outcome of an operation that either succeeds or throws `new Error(message)`. */
  datatype Result<+T> = Ok(value: T) | Err(message: string)
}
