/** Success/failure values used where the Java code returns normally or throws. */
module Wrappers {

  /** A value, or the exception the Java code would throw instead. */
  datatype Result<+T, +E> = Success(value: T) | Failure(error: E)

  /** Normal completion of a void method, or the exception it throws. */
  datatype Outcome<+E> = Pass | Fail(error: E)
}
