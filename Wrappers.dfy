/** Stand-ins for Java's nullable references and for calls that fail. */
module Wrappers {

  /** A value that may be absent; `None` plays the part of Java's `null`. */
  datatype Option<+T> = None | Some(value: T)

  /** The outcome of a call that may fail instead of returning. */
  datatype Result<+T, +E> = Success(value: T) | Failure(error: E)
}
