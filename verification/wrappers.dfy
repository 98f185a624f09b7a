/** Failure-carrying values shared by the request builder and the UI state. */
module Wrappers {

  /** An optional value; stands for Go's nil-able `error`. */
  datatype Option<+T> = None | Some(value: T)

  /** Either a computed value or the reason it could not be computed. */
  datatype Result<+T, +E> = Success(value: T) | Failure(error: E)
}
