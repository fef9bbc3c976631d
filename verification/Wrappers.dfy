/** Failure values shared by the models. */
module Wrappers {

  datatype Option<+T> = None | Some(value: T)

  /** Go's `(value, error)` return pair: exactly one side is meaningful. */
  datatype Result<+T> = Ok(value: T) | Err
}
