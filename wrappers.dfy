/** Optional values and pass/fail outcomes, standing for Python's `None` and raised exceptions. */
module Wrappers {

  datatype Option<+T> = None | Some(value: T)

  /** A step that either completes or raises the given error. */
  datatype Outcome<+E> = Pass | Fail(error: E)
}
