/** Option and Result, the failure-compatible wrappers for Rust's `Option` and `Result`, and the contents of an optional list. */
module Wrappers {

  datatype Option<+T> = None | Some(value: T) {
    predicate IsFailure() { None? }

    function PropagateFailure<U>(): Option<U>
      requires None?
    {
      None
    }

    function Extract(): T
      requires Some?
    {
      value
    }

    function GetOr(default: T): T {
      match this
      case Some(v) => v
      case None => default
    }
  }

  datatype Result<+T, +E> = Success(value: T) | Failure(error: E) {
    predicate IsFailure() { Failure? }

    function PropagateFailure<U>(): Result<U, E>
      requires Failure?
    {
      Failure(error)
    }

    function Extract(): T
      requires Success?
    {
      value
    }

    /** Rust's `map_err`. */
    function MapFailure<F>(f: E -> F): Result<T, F> {
      match this
      case Success(v) => Success(v)
      case Failure(e) => Failure(f(e))
    }
  }

  /** The elements of an optional list, `None` read as empty. */
  function Elements<T>(list: Option<seq<T>>): seq<T> {
    if list.Some? then list.value else []
  }
}
