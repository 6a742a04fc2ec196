/** Optional values and fallible results, used for JavaScript's `undefined`/`null`
    and for the errors the source throws. */
module Wrappers {

  datatype Option<+T> = None | Some(value: T)

  datatype Result<+R, +E> = Success(value: R) | Failure(error: E)
}
