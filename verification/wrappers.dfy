/** Failure-compatible option type shared by every module of the model. */
module Wrappers {

  /** A value that may be absent: JavaScript's `undefined` for an optional field. */
  datatype Option<+T> = None | Some(value: T) {

    /** Returns the value in Some, or `default` when None. */
    function GetOr(default: T): T {
      match this
      case Some(v) => v
      case None => default
    }
  }
}
