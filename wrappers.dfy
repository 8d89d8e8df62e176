/** Option and Result, the usual failure-carrying datatypes. */
module Wrappers {

  datatype Option<+T> = None | Some(value: T)

  /** A computation that either produced a value or raised an exception with a message. */
  datatype Result<+T> = Ok(value: T) | Err(message: string)
}
