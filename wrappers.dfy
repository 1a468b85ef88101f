/** Option and Result, the two failure-carrying datatypes the other modules use. */
module Wrappers {

  /** `None` stands for a JavaScript `undefined`/`null` or a Python `None`. */
  datatype Option<+T> = None | Some(value: T)

  /** The value a call returns, or the exception it raises. */
  datatype Result<+T, +E> = Ok(value: T) | Err(error: E)
}
