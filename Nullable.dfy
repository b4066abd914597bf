/** Java's nullable references, written out: `None` is `null`. */
module Nullable {

  datatype Option<+T> = None | Some(value: T) {

    /** The value, or `default` when null (the service's `orZero` and `== null ? 0 : v` idioms). */
    function GetOr(default: T): T {
      match this
      case Some(v) => v
      case None => default
    }
  }
}
