/** Option and Result, used for Go's nil pointers and for (value, error) returns. */
module Wrappers {

  /** None stands for a nil pointer. */
  datatype Option<+T> = None | Some(value: T)

  /** The outcome of a callee that either yields a value or an error. */
  datatype Result<+T, +E> = Ok(value: T) | Err(error: E)
}
