/** Failure-carrying values (Go's `(value, error)` pairs become these) and Go's `byte`. */
module Wrappers {

  /** Go's `byte`, the element of response bodies and file contents. */
  type byte = bv8

  datatype Option<+T> = None | Some(value: T)

  datatype Result<+T, +E> = Ok(value: T) | Err(error: E)
}
