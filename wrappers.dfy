/** Optional and fallible values, in the conventional shape. */
module Wrappers {

  /** A value that may be absent (JavaScript's `null`/`undefined`). */
  datatype Option<+T> = None | Some(value: T)

  /** A value or the message of the error that was thrown instead. */
  datatype Result<+R> = Success(value: R) | Failure(error: string)
}
