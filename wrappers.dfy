/** Option and Result values used for lookups that may find nothing and for
    operations whose Python original raises an exception. */
module Wrappers {

  datatype Option<+T> = None | Some(value: T)

  datatype Result<+R, +E> = Success(value: R) | Failure(error: E)
}
