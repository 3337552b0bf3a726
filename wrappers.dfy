/** Option and Result: the absent value and the error return of the modelled code. */
module Wrappers {

  datatype Option<+T> = None | Some(value: T)

  /** `Err` carries the message of the `Error` the source throws. */
  datatype Result<+T, +E> = Ok(value: T) | Err(error: E)
}
