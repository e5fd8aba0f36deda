/** Result and option types shared by every module. */
module Wrappers {
  datatype Option<+T> = None | Some(value: T)

  datatype Result<+T, +E> = Success(value: T) | Failure(error: E)

  /** An answer from a remote service: a failed request, an empty answer, or a value. */
  datatype Fetch<+T> = Failed | Absent | Found(value: T)
}
