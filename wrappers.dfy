/** Optional values and fallible results, as the request handler sees them:
    Rust's `Option<T>` and `Result<T, E>`. */
module Wrappers {

  /** Rust's `Option<T>`. */
  datatype Option<+T> = None | Some(value: T)

  /** The error value a library call reports. Only its debug rendering
      (what `{:?}` would print) is kept; its structure is the library's. */
  datatype Failure = Failure(detail: string)

  /** Rust's `Result<T, E>` with the error fixed to a library `Failure`. */
  datatype Result<+T> = Ok(value: T) | Err(error: Failure)

  /** A byte of the request body. */
  newtype byte = x: int | 0 <= x < 256
}
