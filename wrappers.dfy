/** Option and Result, the shapes of Python's `None`-or-value and raise-or-return. */
module Wrappers {

  datatype Option<+T> = None | Some(value: T)

  /** The outcome of a call that may raise: `Failure` carries `str(e)` of the exception. */
  datatype Result<+T> = Success(value: T) | Failure(error: string)
}
