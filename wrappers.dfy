/** Optional values: a JSON field that is absent is `None`; a field sent as `null` is not modelled. */
module Wrappers {

  datatype Option<+T> = None | Some(value: T) {

    /** The value, or `default` when absent (a schema default, or a stored value a request leaves alone). */
    function GetOr(default: T): T {
      match this
      case Some(v) => v
      case None => default
    }
  }
}
