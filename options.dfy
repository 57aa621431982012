/** Optional values and results shared by every module of the model. */
module Options {

  /** A value that may be absent (JavaScript's `undefined` or `null`). */
  datatype Option<+T> = None | Some(value: T)

  /** The outcome of an operation that can fail; `Err` stands for a thrown exception. */
  datatype Result<+T, +E> = Ok(value: T) | Err(error: E)
}
