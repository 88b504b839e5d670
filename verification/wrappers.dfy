/** Failure-carrying values: the model's stand-in for JavaScript's `null`-or-value and
    `{ error }` return conventions. */
module Wrappers {
  datatype Option<+T> = None | Some(value: T)

  datatype Result<+T, +E> = Ok(value: T) | Err(error: E)
}
