/** Optional values: a JavaScript `null`/`undefined` field, a failed parse or an
    oracle that produced nothing is `None`. */
module Wrappers {

  datatype Option<+T> = None | Some(value: T) {

    /** The value, or `default` for `None`. */
    function GetOr(default: T): T {
      match this
      case Some(v) => v
      case None => default
    }
  }
}
