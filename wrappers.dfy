/** Optional values: `None` stands for JavaScript's `null`/`undefined`
    or for a promise that rejected, depending on where it is used. */
module Wrappers {
  datatype Option<+T> = None | Some(value: T) {
    function GetOr(default: T): T {
      match this
      case Some(v) => v
      case None => default
    }
  }
}
