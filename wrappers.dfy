/** Option and Result, the two shapes in which the backend's helpers report absence and errors. */
module Wrappers {

  datatype Option<+T> = None | Some(value: T) {
    function GetOr(default: T): T {
      match this
      case Some(v) => v
      case None => default
    }
  }

  /** `Err` stands for a raised Python exception (or an HTTP error), carrying its message. */
  datatype Result<+T, +E> = Ok(value: T) | Err(error: E)
}
