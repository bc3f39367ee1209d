/** Option and Result, for values that the bot may fail to obtain. */
module Wrappers {

  /** A value that may be absent: a fetch that failed, a record field that is missing. */
  datatype Option<+T> = None | Some(value: T)

  /** The result of a computation that may raise: `Err` carries what was raised. */
  datatype Result<+T, +E> = Ok(value: T) | Err(error: E)
}
