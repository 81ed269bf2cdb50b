/** Optional values and success/failure results, used for the C++ optionals
    and for the exceptions the front end can throw. */
module Wrappers {

  datatype Option<+T> = None | Some(value: T)

  datatype Result<+R, +E> = Success(value: R) | Failure(error: E)
}
