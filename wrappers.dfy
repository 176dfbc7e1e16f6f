/** Small result types shared by every module. */
module Wrappers {

  /** A value that may be missing: JavaScript's `null`/`undefined`, Python's `None`. */
  datatype Option<+T> = None | Some(value: T) {
    function GetOr(default: T): T {
      match this
      case Some(v) => v
      case None => default
    }
  }

  /** How a JavaScript expression completes: with a value, or by throwing a
      TypeError (a property read on `null`, a method call on a value that has
      no such method, an assignment to a property of a primitive in strict
      module code). */
  datatype Completion<+T> = Normal(value: T) | Throws
}
