/** Option and Result datatypes shared by every module of the model.
    A `Result` carries the message of the `Error` the original code throws. */
module Wrappers {

  datatype Option<+T> = None | Some(value: T) {

    /** The contained value, or `default` when there is none (the `??` operator). */
    function GetOr(default: T): T
    {
      match this
      case Some(v) => v
      case None => default
    }
  }

  /** An operation that either completes with a value or throws an error message. */
  datatype Result<+T> = Ok(value: T) | Err(error: string)
}
