/** Option, Result and Outcome: the model's stand-ins for Python's `None`
    and for raised exceptions. */
module Wrappers {

  datatype Option<+T> = None | Some(value: T)

  /** A computation that either yields a value or raises an error. */
  datatype Result<+T, +E> = Success(value: T) | Failure(error: E)

  /** A computation without a value that either completes or raises an error. */
  datatype Outcome<+E> = Pass | Fail(error: E)
}
