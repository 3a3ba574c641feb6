/** Option and Result, standing in for Java's nullable references and thrown exceptions. */
module Wrappers {

  /** A possibly absent value: `None` plays the part of a Java `null`. */
  datatype Option<+T> = None | Some(value: T)

  /** The outcome of an operation that either returns a value or throws. */
  datatype Result<+R, +E> = Success(value: R) | Failure(error: E)
}
