/** Values shared by every module of the model. */
module Wrappers {

  /** A value that may be absent: a missing file, a nil pointer, an empty header. */
  datatype Option<+T> = None | Some(value: T)

  /** A call that may fail. */
  datatype Result<+T, +E> = Ok(value: T) | Err(error: E)
}
