/** Failure-carrying values used for the source's exceptions and `None` returns. */
module Wrappers {

  datatype Option<+T> = None | Some(value: T)

  /** `Err` stands for a Python exception raised out of the operation. */
  datatype Result<+T, +E> = Ok(value: T) | Err(error: E)
}
