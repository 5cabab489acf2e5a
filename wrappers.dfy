/** Results of operations that can throw in the Java source.  A thrown
    exception becomes a `Failure` value carrying the exception. */
module Wrappers {

  datatype Option<+T> = None | Some(value: T)

  datatype Result<+T, +E> = Success(value: T) | Failure(error: E)
}
