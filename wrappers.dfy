/** Option and Result, shared by the collector and the dashboard models. */
module Wrappers {

  datatype Option<+T> = None | Some(value: T)

  /** Outcome of a handler that can fail; `Err` carries the HTTP-level fault. */
  datatype Result<+R, +E> = Ok(value: R) | Err(error: E)
}
