/** The optional and failing results used across the model: Python's `None`
    for an absent optional argument, and an exception raised by an operation. */
module Wrappers {

  datatype Option<+T> = None | Some(value: T)

  datatype Result<+T, +E> = Success(value: T) | Failure(error: E)
}
