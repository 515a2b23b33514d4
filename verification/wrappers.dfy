/** An optional value and the outcome of a service call, which either
    succeeds with a value or fails with the message of the error the service
    throws. */
module Wrappers {

  datatype Option<+T> = None | Some(value: T) {

    /** The value, or `default` when there is none. */
    function GetOr(default: T): (r: T)
      ensures Some? ==> r == value
      ensures None? ==> r == default
    {
      match this
      case Some(v) => v
      case None => default
    }
  }

  /** A service call either returns a value or throws an `Error` whose message
      the caller inspects; only the message is observable. */
  datatype Result<+T> = Success(value: T) | Failure(error: string)
}
