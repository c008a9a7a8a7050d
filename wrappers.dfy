/** Option for JavaScript values that may be `undefined`, Result for the
    page's fail-fast error path. */
module Wrappers {

  datatype Option<+T> = None | Some(value: T)

  datatype Result<+R, +E> = Success(value: R) | Failure(error: E)
}
