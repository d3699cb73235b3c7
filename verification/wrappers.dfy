/** Failure-carrying result types shared by the model. */
module Wrappers {

  /** Python's `X | None`: a value or nothing. */
  datatype Option<+T> = None | Some(value: T)

  /** A computation that either succeeds with a value or raises with a message. */
  datatype Result<+T> = Success(value: T) | Failure(message: string)
}
