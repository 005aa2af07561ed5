/** Failure-carrying result types shared by the other modules. */
module Wrappers {

  /** A value that may be absent, as a Python dict lookup that may miss. */
  datatype Option<+T> = None | Some(value: T)

  /** The outcome of a call that may raise: its value, or the exception raised. */
  datatype Result<+R, +E> = Success(value: R) | Failure(error: E)
}
