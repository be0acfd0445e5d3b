// Python's `None`-or-value, as a datatype.

module Wrappers {

  datatype Option<+T> = None | Some(value: T) {

    /** `x if x is not None else default` */
    function GetOr(default: T): T {
      match this
      case Some(v) => v
      case None => default
    }
  }
}
