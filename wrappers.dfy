/** Optional values: `None` stands for JavaScript's `undefined`, a NaN
    result, or an exception thrown part-way through an operation. */
module Wrappers {

  datatype Option<+T> = None | Some(value: T) {
    function GetOr(default: T): T {
      match this
      case Some(v) => v
      case None => default
    }
  }
}
