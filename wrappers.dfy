/** Optional values and call outcomes shared by every module of the model. */
module Wrappers {

  /** A value that may be absent; `None` stands for Python's `None`. */
  datatype Option<+T> = None | Some(value: T) {

    /** The held value, or `default` when absent. */
    function GetOr(default: T): T {
      match this
      case Some(v) => v
      case None => default
    }
  }

  /**
   * How a Python call ends: it returns a value, it returns `None`, or it
   * raises an exception that the source does not catch.
   */
  datatype Outcome<+T> = Returned(value: T) | ReturnedNone | Raised
}
