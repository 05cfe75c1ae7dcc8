/** Failure-carrying datatypes shared by every module of the model.
    - Option<T> stands for Rust's Option.
    - Result<T, E> stands for Rust's Result and for the panics of the source
      (an unwrap or assert on data a caller supplies becomes an Err).
 */
module Wrappers {

  datatype Option<+T> = None | Some(value: T) {

    /** The value, or `default` when there is none (Rust's unwrap_or). */
    function UnwrapOr(default: T): T {
      match this
      case Some(v) => v
      case None => default
    }
  }

  datatype Result<+T, +E> = Ok(value: T) | Err(error: E) {

    function ToOption(): Option<T> {
      match this
      case Ok(v) => Some(v)
      case Err(_) => None
    }
  }
}
