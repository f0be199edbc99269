/** Failure-carrying result types shared by the model. */
module Wrappers {

  datatype Option<+T> = None | Some(value: T)

  /** A value or the reason a step aborted. */
  datatype Result<+R, +E> = Success(value: R) | Failure(error: E)

  /** Success without a value, or the reason a step aborted. */
  datatype Outcome<+E> = Pass | Fail(error: E)
}
