/** Small failure-carrying datatypes shared by the other modules. */
module Wrappers {

  /** A value that may be absent, as a nullable column or a missing JSON field. */
  datatype Option<+T> = None | Some(value: T)

  /** The outcome of an operation that either produces a value or is rejected. */
  datatype Result<+T, +E> = Success(value: T) | Failure(error: E)
}
