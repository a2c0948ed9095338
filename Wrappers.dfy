/** Failure-carrying values shared by the model's modules. */
module Wrappers {

  /** A value that may be absent, as a Java reference that may be null. */
  datatype Option<+T> = None | Some(value: T)

  /** The outcome of an operation that may throw: the value, or the exception's message. */
  datatype Result<+T> = Ok(value: T) | Err(message: string)
}
