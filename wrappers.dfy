/** Option, Result and Outcome: the model's stand-ins for Java's null and its exceptions. */
module Wrappers {

  /** A value that may be absent; None plays the part of a Java null reference. */
  datatype Option<+T> = None | Some(value: T)

  /** The value of a Java call that either returns normally or throws `error`. */
  datatype Result<+R, +E> = Success(value: R) | Failure(error: E)

  /** The value of a Java void call that either returns or throws `error`. */
  datatype Outcome<+E> = Pass | Fail(error: E)
}
