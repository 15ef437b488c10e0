/** Failure-carrying values shared by every module: an optional value (a
    nullable or `undefined` field), the result of an operation that may
    throw, and the pass/fail outcome of a check. */
module Wrappers {

  datatype Option<T> = None | Some(value: T) {
    function GetOr(default: T): T {
      match this
      case Some(v) => v
      case None => default
    }
  }

  datatype Result<T, E> = Ok(value: T) | Err(error: E)

  datatype Outcome<E> = Pass | Fail(error: E)
}
