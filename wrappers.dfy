/** A value that may be absent: the model of JavaScript's null / undefined
    and of a parse that yields NaN. */
module Wrappers {
  datatype Option<+T> = None | Some(value: T) {
    function GetOr(default: T): T {
      match this
      case Some(v) => v
      case None => default
    }
  }
}
