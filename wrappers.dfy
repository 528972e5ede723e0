/** Optional values (Java's nullable references) and results that may carry an error. */
module Wrappers {

  /** `None` stands for a Java `null`. */
  datatype Option<+T> = None | Some(value: T)

  /** The outcome of an operation that may throw one of the service's exceptions. */
  datatype Result<+R, +E> = Success(value: R) | Failure(error: E)
}
