/** Failure-carrying wrappers shared by the gate and the handlers. */
module Wrappers {

  /** A Java reference that may be null, or a repository lookup that may find nothing. */
  datatype Option<+T> = None | Some(value: T)

  /** The outcome of a check: it passes, or it fails with an error. */
  datatype Outcome<+E> = Pass | Fail(error: E)

  /** A value, or the error raised instead of returning one. */
  datatype Result<+T, +E> = Ok(value: T) | Err(error: E)
}
