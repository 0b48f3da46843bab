/** Failure-carrying results shared by the stores. */
module Wrappers {

  /** The source's `None` or a value. */
  datatype Option<+T> = None | Some(value: T)

  /** A value, or the reason an operation refused. */
  datatype Result<+T, +E> = Ok(value: T) | Err(error: E)
}
