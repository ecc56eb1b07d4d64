/** Optional values and pass/fail outcomes shared by the whole model. */
module Wrappers {

  /** A value that may be absent (a missing field of a JSON record, `null`). */
  datatype Option<+T> = None | Some(value: T)

  /** The result of a guard: either it passed, or it failed with an error value. */
  datatype Outcome<+E> = Pass | Fail(error: E)
}
