/** Optional values and success/failure results, used for the error paths of the model. */
module Wrappers {

  datatype Option<+T> = None | Some(value: T)

  /** A computation that either produces a value or throws `error`. */
  datatype Result<+T, +E> = Ok(value: T) | Err(error: E)
}
