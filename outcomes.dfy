/** Small value wrappers shared by the other modules. */
module Outcomes {

  /** Python's `None` or a value. */
  datatype Option<+T> = None | Some(value: T)

  /** A computation that either produced a value or stopped at an error. */
  datatype Result<+R, +E> = Success(value: R) | Failure(error: E)
}
