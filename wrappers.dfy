/** Optional values and success-or-error results, standing in for Java's
    `null` and for exceptions thrown by library calls. */
module Wrappers {

  datatype Option<+T> = None | Some(value: T)

  datatype Result<+R, +E> = Success(value: R) | Failure(error: E)
}
