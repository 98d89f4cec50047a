/** Failure-carrying results, for the one error the renderer raises. */
module Wrappers {

  /** A value that may be absent, as an optional option field or an unloaded image. */
  datatype Option<+T> = None | Some(value: T) {

    /** The encapsulated value, or `default` when absent. */
    function GetOr(default: T): T {
      match this
      case Some(v) => v
      case None => default
    }
  }

  /** The outcome of a render: a value, or the message the source throws. */
  datatype Result<+R, +E> = Success(value: R) | Failure(error: E)
}
