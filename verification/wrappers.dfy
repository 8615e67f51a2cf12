/** Failure-compatible wrappers shared by the whole model. */
module Wrappers {

  /** A value that may be missing: JavaScript's `undefined` where the source reads an optional field. */
  datatype Option<+T> = None | Some(value: T) {

    /** The wrapped value, or `default` when there is none. */
    function GetOr(default: T): T {
      match this
      case Some(v) => v
      case None => default
    }
  }

  /** `f` of the wrapped value, or `default` when there is none. */
  function MapOr<T, U>(o: Option<T>, f: T -> U, default: U): U
  {
    match o
    case Some(v) => f(v)
    case None => default
  }

  /** The outcome of an operation that can throw. */
  datatype Result<+T, +E> = Success(value: T) | Failure(error: E)
}
