/** Failure-carrying values shared by the backend and the control loop. */
module Wrappers {

  /** An optional value; `None` is the source's `None` ("no control" as an action). */
  datatype Option<+T> = None | Some(value: T)

  /** A value, or the error an operation raised instead of producing it. */
  datatype Result<+R, +E> = Success(value: R) | Failure(error: E)

  /** Whether an operation that returns nothing completed or raised. */
  datatype Outcome<+E> = Pass | Fail(error: E)
}
