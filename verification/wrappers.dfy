/** Optional values: the model's reading of JavaScript's `null` / `undefined`. */
module Wrappers {

  /** `None` stands for `null` or a missing value, `Some(v)` for a present one. */
  datatype Option<+T> = None | Some(value: T) {

    /** The wrapped value, or `default` when there is none. */
    function GetOr(default: T): T {
      match this
      case Some(v) => v
      case None => default
    }
  }
}
