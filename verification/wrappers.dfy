/** Failure-carrying values shared by the rest of the model. */
module Wrappers {

  /** A value that may be absent: Go's `(v, ok)` pairs and nil function values. */
  datatype Option<+T> = None | Some(value: T)

  /** Either a value or an error: Go's `(v, err)` results. */
  datatype Result<+T, +E> = Ok(value: T) | Err(error: E)
}
