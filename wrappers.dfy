/** Option / Result / Outcome values standing in for JavaScript's `null`,
    thrown errors and "throws or returns normally". */
module Wrappers {

  datatype Option<+T> = None | Some(value: T)

  /** A computation that either returns `value` or throws an Error whose
      `message` is `error`. */
  datatype Result<+T, +E> = Success(value: T) | Failure(error: E)

  /** A step that either completes or throws an Error with message `error`. */
  datatype Outcome<+E> = Pass | Fail(error: E)
}
