/** Failure-carrying values shared by every module of the model. */
module Wrappers {

  /** A value that may be absent: a nullable C pointer, Python's None. */
  datatype Option<+T> = None | Some(value: T)

  /** A value or the error that replaced it: a C error return, a Python exception. */
  datatype Result<+T, +E> = Ok(value: T) | Err(error: E)
}
