/** Optional values and the outcome of a JavaScript promise: resolved with a
    value, or rejected with an error message. */
module Wrappers {

  datatype Option<T> = None | Some(value: T)

  datatype Result<T> = Ok(value: T) | Err(error: string)
}
