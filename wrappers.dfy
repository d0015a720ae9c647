/** Optional values and error-carrying results, used where the source has
    `undefined`/`null` fields or throws. */
module Wrappers {
  datatype Option<+T> = None | Some(value: T)

  datatype Result<+T, +E> = Ok(value: T) | Err(error: E)
}
