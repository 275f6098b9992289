/** Optional values and the success-or-error outcome of a computation that can throw. */
module Wrappers {

  /** A value that may be absent (`undefined` on the TypeScript side). */
  datatype Option<+T> = None | Some(value: T)

  /** The result of an operation that either returns a value or throws an `Error` carrying a message. */
  datatype Result<+T> = Ok(value: T) | Err(error: string)
}
