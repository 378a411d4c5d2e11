/** Failure-carrying and JSON-shaped wrapper types shared by every module. */
module Wrappers {

  datatype Option<+T> = None | Some(value: T)

  datatype Result<+T, +E> = Success(value: T) | Failure(error: E)

  /** A property of a parsed JSON body as JavaScript sees it: missing
      (`undefined`), explicitly `null`, or present with a value. The
      distinction matters for `??` (both missing and null fall back) versus
      `!== undefined` (only missing counts as absent). */
  datatype Field<+T> = Undefined | Null | Value(value: T)
}
