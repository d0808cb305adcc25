/** The optional-value datatype shared by every module of the model. */
module Wrappers {

  /** A value that may be absent: Python's `None`, a missing dictionary key,
      or an `undefined` entry of a JavaScript record. */
  datatype Option<+T> = None | Some(value: T) {

    /** The value when present, `default` otherwise (Python's `d.get(k, default)`). */
    function GetOr(default: T): T {
      match this
      case Some(v) => v
      case None => default
    }
  }
}
