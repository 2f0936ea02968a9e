/** The two outcome types every component of the model returns. */
module Outcomes {

  /** A value that may be absent (Python's None). */
  datatype Option<+T> = None | Some(value: T)

  /** A call that either returns a value or raises a domain error. */
  datatype Result<+T, +E> = Ok(value: T) | Err(error: E)
}
