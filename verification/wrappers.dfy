/** Failure-carrying values. The Ruby code signals every error by raising an
    exception with a message; the model keeps the message and nothing else. */
module Wrappers {

  /** A value that may be absent: Ruby's `nil` versus an object. */
  datatype Option<+T> = None | Some(value: T)

  /** An operation that either yields a value or raises with a message. */
  datatype Result<+T> = Success(value: T) | Failure(error: string)

  /** A check that either passes or raises with a message. */
  datatype Outcome = Pass | Fail(error: string)
}
