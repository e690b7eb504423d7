/** Optional values: a JavaScript `null`/`undefined` or an absent object key. */
module Wrappers {

  datatype Option<+T> = None | Some(value: T) {

    /** The value, or `default` when absent (the `x || default` idiom). */
    function GetOr(default: T): T {
      match this
      case Some(v) => v
      case None => default
    }
  }

  /** Object spread `{...base, ...patch}` for one key: a key present in the patch wins. */
  function Override<T>(base: T, patch: Option<T>): T {
    match patch
    case Some(v) => v
    case None => base
  }
}
