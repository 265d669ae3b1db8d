/** Option and Result values shared by the modules of this model. */
module Wrappers {

  /** A value that may be absent (Python's `None`). */
  datatype Option<+T> = None | Some(value: T)

  /** The outcome of an operation that raises in the source: a value or an error text. */
  datatype Result<+T> = Success(value: T) | Failure(error: string)
}
