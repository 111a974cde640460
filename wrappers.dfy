/** Optional values and fallible results, standing for TypeScript's
    `T | null | undefined` and for a thrown `Error` with its message. */
module Wrappers {

  datatype Option<+T> = None | Some(value: T)

  datatype Result<+R, +E> = Success(value: R) | Failure(error: E)
}
