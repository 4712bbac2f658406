/** Failure-compatible wrappers shared by every module:
    Option stands for Python's `X | None`, Result for a call that may raise. */
module Wrappers {

  datatype Option<+T> = None | Some(value: T)

  /** `Err` carries the text of the exception the Python code would raise. */
  datatype Result<+T> = Ok(value: T) | Err(error: string)
}
