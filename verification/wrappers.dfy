/** Failure-carrying shapes shared by the rest of the model. */
module Wrappers {

  /** A value that may be absent: a lookup that found nothing, a null reference. */
  datatype Option<+T> = None | Some(value: T)

  /** The outcome of an operation that either produces a value or stops with an error. */
  datatype Result<+T, +E> = Ok(value: T) | Err(error: E)
}
