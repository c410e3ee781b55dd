/** Failure-carrying values shared by the modules of this model. */
module Wrappers {

  /** A value that may be absent: Go's `(value, ok)` and nil-able results. */
  datatype Option<+T> = None | Some(value: T)

  /** A Go `(value, error)` pair where exactly one side is meaningful. */
  datatype Result<+T, +E> = Ok(value: T) | Err(error: E)
}
