/** A value that may be missing, and a computation that may raise. */
module Wrappers {

  datatype Option<T> = None | Some(value: T)

  datatype Result<T> = Raised | Ok(value: T)
}
