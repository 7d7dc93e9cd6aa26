/** The Option datatype used for the program's "value or None" results. */
module Wrappers {

  /** A present value, or Python's `None`. */
  datatype Option<+T> = None | Some(value: T) {

    /** Returns the value held in Some, or `default` if None. */
    function GetOr(default: T): T {
      match this
      case Some(v) => v
      case None => default
    }
  }
}
