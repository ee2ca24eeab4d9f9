/** Stand-ins for Go's nil pointers and (value, error) return pairs. */
module Wrappers {

  /** A value that may be absent, in place of a nil pointer or nil interface. */
  datatype Option<+T> = None | Some(value: T)

  /** A value or the error that prevented computing it. */
  datatype Outcome<+T, +E> = Ok(value: T) | Err(error: E)
}
