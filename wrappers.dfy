/** The optional-value datatype shared by every module: JavaScript's `null`/`undefined`
    results and missing object fields become `None`. */
module Wrappers {

  datatype Option<+T> = None | Some(value: T) {

    /** The value, or a default when there is none (JavaScript's `x ?? d`). */
    function GetOr(default: T): T {
      match this
      case Some(v) => v
      case None => default
    }
  }
}
