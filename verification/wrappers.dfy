/** Failure-carrying datatypes shared by the model. */
module Wrappers {

  /** A value that may be absent; `None` also stands for Go's `nil` error. */
  datatype Option<+T> = None | Some(value: T)

  /** The answer of an external call: a value, or the error the call returned. */
  datatype Result<+T, +E> = Ok(value: T) | Err(error: E)
}
