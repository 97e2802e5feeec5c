/** The option and result types shared by the models. */
module Wrappers {

  datatype Option<+T> = None | Some(value: T)

  /** A Go `(value, error)` pair whose error is nil exactly in the `Ok` case. */
  datatype Result<+T, +E> = Ok(value: T) | Err(error: E)
}
