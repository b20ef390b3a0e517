/** Failure-carrying wrappers shared by the whole model. */
module Prelude {

  /** A value that may be absent: a missing optional field of a record. */
  datatype Option<+T> = None | Some(value: T) {
    function GetOr(default: T): T {
      match this
      case Some(v) => v
      case None => default
    }
  }

  /** The outcome of an operation that either produces a value or rejects with an error. */
  datatype Result<+T, +E> = Ok(value: T) | Err(error: E)

  /** The outcome of an operation that only succeeds or rejects (a `Promise<void>`). */
  datatype Outcome<+E> = Pass | Fail(error: E)
}
