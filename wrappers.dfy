/** Optional values and success-or-error results shared by every module of the model. */
module Wrappers {

  /** A value that may be absent: a missing JSON member, an unset column, a lookup that found nothing. */
  datatype Option<+T> = None | Some(value: T) {

    /** The value, or `default` when there is none (the `??` operator of the source). */
    function GetOr(default: T): T {
      match this
      case Some(v) => v
      case None => default
    }
  }

  /** The outcome of a request handler: the value it answers with, or the error it responds with. */
  datatype Result<+T, +E> = Success(value: T) | Failure(error: E)
}
