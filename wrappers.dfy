/** Option and Result, used for the definition errors that the original
    reports at compile time (static assertions, missing overloads). */
module Wrappers {

  datatype Option<+T> = None | Some(value: T)

  datatype Result<+R, +E> = Success(value: R) | Failure(error: E)
}
