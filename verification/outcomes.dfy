/** Optional values, used for the answers of the oracles (a failed remote
    call or a failed system call answers None) and for "the first error". */
module Outcomes {

  datatype Option<+T> = None | Some(value: T)

  /** A value or an error, as Go's `(T, error)` pairs are used by the source. */
  datatype Result<+T, +E> = Ok(value: T) | Err(error: E)
}
