/** Option and Result wrappers shared by the other modules. */
module Common {

  datatype Option<+T> = None | Some(value: T)

  /** The outcome of an operation that the original program may abort with an exception. */
  datatype Result<+T, +E> = Ok(value: T) | Err(error: E)
}
