/**
 The two outcome types every other module returns: `Option` for a lookup
 or parse that may find nothing, `Result` for a call that may raise.
 */
module Wrappers {

  /** A value that may be absent. */
  datatype Option<+T> = None | Some(value: T)

  /** The value a call returns, or the exception it raises instead (`E`). */
  datatype Result<+R, +E> = Success(value: R) | Failure(error: E)
}
