/** Failure-carrying values shared by the modules of this model. */
module Wrappers {

  /** A value that may be absent: Python's `None` or a real value. */
  datatype Option<T> = None | Some(value: T)

  /** The outcome of a Python call that either returns a value or raises;
      `error` names the exception class. */
  datatype Result<T> = Ok(value: T) | Err(error: string)
}
