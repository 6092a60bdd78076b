/** Option and Result, the model's stand-ins for PHP's `null` and for exceptions. */
module Wrappers {

  /** A value that may be absent, as a nullable model or column. */
  datatype Option<+T> = None | Some(value: T) {

    /** The value, or `default` when absent (PHP's `??`). */
    function GetOr(default: T): T
    {
      match this
      case Some(v) => v
      case None => default
    }
  }

  /** The outcome of an operation that may throw: a value or the error raised. */
  datatype Result<+T, +E> = Ok(value: T) | Err(error: E)
}
