/**
 * The outcome of an operation that the source can abort with an exception:
 * either its value, or the error that stands for the exception.
 */
module Results {
  datatype Result<+T, +E> = Success(value: T) | Failure(error: E)
}
