/** Small failure-carrying datatypes shared by the other modules. */
module Wrappers {

  /** A value that may be absent, as Python's `None`. */
  datatype Option<+T> = None | Some(value: T)

  /** The outcome of an operation that may raise. */
  datatype Result<+R, +E> = Ok(value: R) | Err(error: E)
}
