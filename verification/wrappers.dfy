/** The optional-value type used for the nullable and possibly-absent slots of the application. */
module Wrappers {

  /** `None` stands for JavaScript's `null` / `undefined`; `Some(v)` for a present value. */
  datatype Option<+T> = None | Some(value: T) {

    /** Returns the value in `Some`, or `default` when `None` (the `x ?? default` idiom). */
    function GetOr(default: T): T {
      match this
      case Some(v) => v
      case None => default
    }
  }
}
