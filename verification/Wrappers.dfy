/** The types shared by the model. */
module Wrappers {

  datatype Option<+T> = None | Some(value: T)

  /** A value, or the exception the Python code raises instead of returning one. */
  datatype Result<+T, +E> = Success(value: T) | Failure(error: E)

  /** A field of a loosely typed response. */
  datatype Field = Absent | NotBoolean | Boolean(value: bool)

  /** A session id and a call id. */
  type CallKey = (string, string)
}
