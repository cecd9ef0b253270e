/** Stand-ins for Java's null and for an exception thrown to signal a misuse. */
module Wrappers {

  /** `None` plays the part of a null reference. */
  datatype Option<+T> = None | Some(value: T)

  /** The outcome of an operation that either yields a value or fails fast. */
  datatype Result<+R, +E> = Success(value: R) | Failure(error: E)
}
