/** Optional values: an absent query parameter, an omitted JSON key or argument. */
module Wrappers {

  datatype Option<+T> = None | Some(value: T) {

    /** The value, or `default` when absent */
    function GetOr(default: T): T {
      match this
      case Some(v) => v
      case None => default
    }
  }
}
