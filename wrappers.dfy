/** Option and Result, the failure-carrying values every service returns. */
module Wrappers {
  import opened Errors

  datatype Option<+T> = None | Some(value: T)

  /** The outcome of a service call: a value, or the error it throws. */
  datatype Result<+T> = Ok(value: T) | Err(error: Error)
}
