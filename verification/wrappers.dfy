/** Option and Result, used throughout the model. */
module Wrappers {

  /** A value that may be absent: an optional field of a record, or a
      JSON property that was not sent. */
  datatype Option<+T> = None | Some(value: T)

  /** Either a value or the reason none could be produced. */
  datatype Result<+R, +E> = Success(value: R) | Failure(error: E)
}
