/** Optional values and results, standing for JavaScript's `null`/`undefined`
    and for an operation that either succeeds or reports an error. */
module Wrappers {

  datatype Option<+T> = None | Some(value: T)

  datatype Result<+T, +E> = Ok(value: T) | Err(error: E)
}
