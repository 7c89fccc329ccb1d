/** Failure-compatible option type used wherever the source returns `null`,
    `NaN` or a failed regular-expression match. */
module Wrappers {

  datatype Option<+T> = None | Some(value: T) {

    /** The carried value, or `default` when there is none. */
    function GetOr(default: T): T {
      match this
      case Some(v) => v
      case None => default
    }
  }
}
