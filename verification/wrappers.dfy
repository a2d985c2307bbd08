/** Optional values and the outcome of an operation that may throw. */
module Wrappers {

  /** A PHP nullable value (`?int`, `?string`, `?SheetView`). */
  datatype Option<+T> = None | Some(value: T)

  /** A value, or the exception that was thrown instead of producing it. */
  datatype Result<+T, +E> = Ok(value: T) | Err(error: E)

  /** A `void` operation that either completes or throws. */
  datatype Outcome<+E> = Pass | Fail(error: E)
}
