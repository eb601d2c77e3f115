/** Optional values and success/failure results shared by every module of the model. */
module Wrappers {

  /** A value that may be absent; stands for JavaScript's `null`/`undefined`. */
  datatype Option<+T> = None | Some(value: T) {

    /** Returns the value, or `default` when absent. */
    function GetOr(default: T): T {
      match this
      case Some(v) => v
      case None => default
    }
  }

  /** The outcome of an operation that may be rejected with an error message or value. */
  datatype Result<+R, +E> = Ok(value: R) | Err(error: E) {

    predicate IsFailure() {
      Err?
    }
  }
}
