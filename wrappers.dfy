/** Failure-carrying values used for the Java code's nulls and exceptions. */
module Wrappers {

  datatype Option<+T> = None | Some(value: T) {
    function GetOr(default: T): T {
      match this
      case Some(v) => v
      case None => default
    }
  }

  /** A Java call that either returns a value or throws an exception with the given message. */
  datatype Result<+T> = Ok(value: T) | Err(error: string)
}
