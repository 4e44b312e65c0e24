/** Failure-carrying values used in place of Java's null, Optional and exceptions. */
module Wrappers {

  /** An absent-or-present value: Java's nullable reference or Optional. */
  datatype Option<+T> = None | Some(value: T)

  /** The value of a call that either returns or throws. */
  datatype Result<+R, +E> = Success(value: R) | Failure(error: E)

  /** The outcome of a call that returns nothing or throws. */
  datatype Outcome<+E> = Pass | Fail(error: E)
}
