/** Option, Result and Outcome: the model's stand-ins for Python's `None` and
    for raised exceptions. */
module Wrappers {

  datatype Option<+T> = None | Some(value: T)

  datatype Result<+R, +E> = Success(value: R) | Failure(error: E)

  /** The result of a check that either passes or raises. */
  datatype Outcome<+E> = Pass | Fail(error: E)
}
