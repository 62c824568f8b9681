/** Option and Result datatypes used for optional settings and for failures. */
module Wrappers {

  datatype Option<+T> = None | Some(value: T) {
    /** The carried value, or `default` when there is none. */
    function GetOr(default: T): T {
      match this
      case Some(v) => v
      case None => default
    }
  }

  /** The outcome of an operation that can throw: a value, or the thrown message. */
  datatype Result<+T> = Ok(value: T) | Err(message: string)
}
