/** Optional values and results with an error, used for the C code's NULL pointers and undefined behaviour. */
module Wrappers {

  /** A value that may be absent: a C pointer that may be NULL. */
  datatype Option<+T> = None | Some(value: T)

  /** A computed value, or the reason none could be computed. */
  datatype Result<+T, +E> = Ok(value: T) | Err(error: E)
}
