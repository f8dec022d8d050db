/** Optional values: JavaScript's `undefined` / `null` and a missing field. */
module Wrappers {

  datatype Option<+T> = None | Some(value: T) {

    /** `x ?? d` and `x || d` on a value that is present exactly when it is truthy. */
    function GetOr(default: T): T {
      match this
      case Some(v) => v
      case None => default
    }
  }
}
