/** Small failure-carrying datatypes shared by the whole model. */
module Wrappers {

  /** A value that may be absent (Python's `None`). */
  datatype Option<T> = None | Some(value: T)

  /** The answer of an external service call: a value, or the text of the exception it raised. */
  datatype Fetch<T> = Fetched(value: T) | FetchFailed(message: string)
}
