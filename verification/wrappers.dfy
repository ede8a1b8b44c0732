/** Optional values and error-carrying results, standing in for the `null`,
    `undefined` and thrown errors of the booking front end. */
module Wrappers {

  /** `null` / `undefined` versus a present value. */
  datatype Option<+T> = None | Some(value: T) {

    /** The held value, or `default` when absent (JavaScript's `x || default`
        for values whose only falsy form is absence). */
    function GetOr(default: T): T {
      match this
      case Some(v) => v
      case None => default
    }
  }

  /** A value, or the message of an error the source would throw. */
  datatype Result<+R> = Success(value: R) | Failure(error: string)
}
