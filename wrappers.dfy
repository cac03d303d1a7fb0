/** Small failure-compatible datatypes shared by the backend and the client models. */
module Wrappers {

  /** A value that may be absent (`null`/`undefined` in the client, `None` in the backend). */
  datatype Option<+T> = None | Some(value: T)

  /** The outcome of an operation that may raise instead of returning. */
  datatype Result<+R, +E> = Ok(value: R) | Err(error: E)
}
