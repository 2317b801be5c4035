/** Option and Result values, used where the source returns None or raises. */
module Wrappers {

  datatype Option<+T> = None | Some(value: T) {
    function GetOr(default: T): T {
      match this
      case Some(v) => v
      case None => default
    }
  }

  /** `Failure(message)` stands for a raised exception whose text is `message`. */
  datatype Result<+T, +E> = Success(value: T) | Failure(error: E)
}
