/** Success/failure values, used for the controller's `error` returns. */
module Wrappers {

  /** Either a value or an error; `Err` stands for a non-nil Go `error`. */
  datatype Result<+T, +E> = Ok(value: T) | Err(error: E)
}
