/** The optional value that stands for a Java reference that may be null, and the
    result of an operation that may end in a runtime exception. */
module Wrappers {

  datatype Option<+T> = None | Some(value: T)

  datatype Result<+T, +E> = Success(value: T) | Failure(error: E)
}
