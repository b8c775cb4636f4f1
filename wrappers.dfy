/** Result and option types used across the scene model. */
module Wrappers {

  datatype Option<+T> = None | Some(value: T)

  /** The outcome of a constructor-like operation that either completes or is aborted by an exception. */
  datatype Outcome<+E> = Pass | Fail(error: E)

  datatype Result<+R, +E> = Success(value: R) | Failure(error: E)
}
