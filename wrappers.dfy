/**
 * Nullable values (JavaScript's `string | null` and similar), and the
 * outcome of an operation that may throw.
 */
module Wrappers {
  datatype Option<T> = None | Some(value: T)

  datatype Result<T> = Ok(value: T) | Failure(error: string)
}
