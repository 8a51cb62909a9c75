/** Failure-compatible helper datatypes shared by the whole model. */
module Wrappers {

  /** A value that may be missing: JavaScript `undefined`/`null` versus a present value. */
  datatype Option<+T> = None | Some(value: T) {

    /** The value, or `default` when missing (the `x ?? default` idiom). */
    function GetOr(default: T): T {
      match this
      case Some(v) => v
      case None => default
    }
  }

  /** The settled outcome of an asynchronous mutation: resolved, or rejected with a message. */
  datatype Outcome = Ok | Err(message: string)
}
