/** Optional values and results that carry an error message. */
module Wrappers {
  datatype Option<T> = None | Some(value: T)

  /** The outcome of an operation that may raise: `Err` names the exception. */
  datatype Result<T> = Ok(value: T) | Err(error: string)
}
