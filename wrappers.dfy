/** Optional values and results, for Python's `None` and for exceptions that escape a call. */
module Wrappers {

  datatype Option<+T> = None | Some(value: T)

  datatype Result<+T, +E> = Ok(value: T) | Err(error: E)
}
