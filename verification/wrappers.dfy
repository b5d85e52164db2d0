/** Option and Result values used across the model in place of JavaScript's
    `undefined` and thrown exceptions. */
module Wrappers {

  datatype Option<+T> = None | Some(value: T) {

    /** The wrapped value, or `default` when there is none (`x ?? default`). */
    function GetOr(default: T): T {
      match this
      case Some(v) => v
      case None => default
    }
  }

  /** A computation that either produced a value or threw `error`. */
  datatype Result<+R, +E> = Ok(value: R) | Err(error: E) {

    predicate IsFailure() {
      Err?
    }

    function PropagateFailure<U>(): Result<U, E>
      requires Err?
    {
      Err(error)
    }

    function Extract(): R
      requires Ok?
    {
      value
    }
  }
}
