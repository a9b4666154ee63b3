/** Option and Result values used for the handler's optional inputs and its faults. */
module Wrappers {

  /** A value that may be absent (a missing dictionary key, an unset filter). */
  datatype Option<+T> = None | Some(value: T) {

    /** The value, or `default` when absent (Python's `dict.get(key, default)`). */
    function GetOr(default: T): T {
      match this
      case Some(v) => v
      case None => default
    }
  }

  /** The outcome of a step that can raise: a value or the fault it raised. */
  datatype Result<+T, +E> = Success(value: T) | Failure(error: E)
}
