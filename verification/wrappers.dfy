/** Small failure-compatible helper shared by every module of the model. */
module Wrappers {

  /** An optional value: the model's stand-in for JavaScript's `undefined`
      in optional fields (an absent initializer, else branch or return value). */
  datatype Option<+T> = None | Some(value: T) {

    /** The wrapped value, or `default` when there is none. */
    function GetOr(default: T): T {
      match this
      case Some(v) => v
      case None => default
    }
  }

  /** The outcome of an operation that may raise: a value or an error. */
  datatype Result<+T, +E> = Success(value: T) | Failure(error: E)
}
