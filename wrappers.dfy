/** Optional values and success/failure results shared by the other modules. */
module Wrappers {

  /** A value that may be absent: a cell that did not parse, a column that is not there. */
  datatype Option<+T> = None | Some(value: T)

  /** The outcome of a step that can halt the page with an error. */
  datatype Result<+R, +E> = Success(value: R) | Failure(error: E)
}
