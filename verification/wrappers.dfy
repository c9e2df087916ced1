/** The optional value that stands for Kotlin's nullable types. */
module Wrappers {

  datatype Option<+T> = None | Some(value: T) {

    /** The value, or `default` where Kotlin's `?:` would take its right operand. */
    function GetOr(default: T): T {
      match this
      case Some(v) => v
      case None => default
    }
  }
}
