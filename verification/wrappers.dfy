/** Failure-carrying wrappers used throughout the model: `Option` for values
    that JavaScript leaves `undefined`, `Result` for operations that throw. */
module Wrappers {

  datatype Option<+T> = None | Some(value: T) {

    /** The value, or `default` when absent (JavaScript's `x ?? default`). */
    function GetOr(default: T): T
    {
      match this
      case Some(v) => v
      case None => default
    }
  }

  /** `Ok` is a normal return; `Err` is a thrown error or rejected promise. */
  datatype Result<+T, +E> = Ok(value: T) | Err(error: E)
}
