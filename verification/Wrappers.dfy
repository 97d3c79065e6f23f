/** Absent values and failing operations. */
module Wrappers {
  datatype Option<T> = None | Some(value: T)
  datatype Result<T> = Success(value: T) | Failure(error: string)
}
