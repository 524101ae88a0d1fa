/** Optional values (SQL NULL, JavaScript null/undefined) and results of
    operations that can throw. */
module Wrappers {

  /** A value that may be absent: a nullable column, an omitted option. */
  datatype Option<+T> = None | Some(value: T)

  /** The outcome of an operation that either returns a value or throws. */
  datatype Result<+R, +E> = Success(value: R) | Failure(error: E)
}
