/** Optional values and results with an error, used at the boundaries of the query layer. */
module Wrappers {

  /** A value that may be absent: a filter argument that may be `None`, an average over no rows. */
  datatype Option<+T> = None | Some(value: T)

  /** The outcome of an operation that can fail, such as loading the review table. */
  datatype Result<+R, +E> = Success(value: R) | Failure(error: E)
}
