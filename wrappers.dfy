/** The optional-value datatype shared by the other modules. */
module Wrappers {

  /** Python's `None`, or a value. */
  datatype Option<+T> = None | Some(value: T) {

    /** The value if present, otherwise `default` (the `dict.get(key, default)` idiom). */
    function GetOr(default: T): T {
      match this
      case Some(v) => v
      case None => default
    }
  }
}
