/** Failure-carrying datatypes shared by the whole model: `Option` for the
    source's `null`/`undefined` and `Result` for promise rejections. */
module Wrappers {

  datatype Option<+T> = None | Some(value: T)

  datatype Result<+T, +E> = Ok(value: T) | Err(error: E)
}
