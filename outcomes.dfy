/** Optional values and failing computations, used for the source's nulls and exceptions. */
module Outcomes {

  /** A value that may be absent (a C# null). */
  datatype Option<T> = None | Some(value: T)

  /** The outcome of an operation that may throw: the exception is kept as its message. */
  datatype Result<T> = Ok(value: T) | Err(message: string)
}
