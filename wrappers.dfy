/** Success/failure results, used where the source returns a value or an error. */
module Wrappers {

  /** Either the value an operation produced or the error it reported. */
  datatype Result<+T, +E> = Success(value: T) | Failure(error: E)
}
