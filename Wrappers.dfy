/** Option and Result values used wherever the Kotlin code has a nullable
    value or a `kotlin.Result` (an exception is carried by its message). */
module Wrappers {

  datatype Option<+T> = None | Some(value: T)

  /** `Result.success(value)` or `Result.failure(e)`; only `e.message` is kept. */
  datatype Result<+T> = Ok(value: T) | Err(message: string)
}
