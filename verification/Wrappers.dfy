/** A value that may be absent, and a value or an error. */
module Wrappers {
  datatype Option<+T> = None | Some(value: T)

  /** `Failure` stands for the exception the original raises. */
  datatype Result<+T> = Success(value: T) | Failure(error: string)
}
