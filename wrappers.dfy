/** Option and Result values for the places where the Go code returns nil, an error,
    or dereferences a nil pointer. */
module Wrappers {

  datatype Option<+T> = None | Some(value: T)

  datatype Result<+T, +E> = Ok(value: T) | Err(error: E)

  /** A Go run-time panic that the model makes explicit instead of excluding by a precondition. */
  datatype Fault = NilDereference
}
