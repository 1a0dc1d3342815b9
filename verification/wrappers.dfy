/** Optional values and success/failure results, used wherever the system
    answers "nothing here" (a missing row, an absent form field) or returns
    a typed failure instead of a record. */
module Wrappers {

  /** A value that may be missing: a nullable column, an optional field. */
  datatype Option<+T> = None | Some(value: T) {

    /** The value when present, otherwise `default` (the `?? default` idiom). */
    function GetOr(default: T): T {
      match this
      case Some(v) => v
      case None => default
    }
  }

  /** The outcome of an action: a value on success, an error otherwise. */
  datatype Result<+R, +E> = Success(value: R) | Failure(error: E) {

    predicate IsSuccess() {
      Success?
    }
  }
}
