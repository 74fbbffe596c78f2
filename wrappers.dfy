/** Option and Result, the two failure-carrying datatypes the model uses for Python's `None`
    and for the exceptions the mock device and the manager raise. */
module Wrappers {

  datatype Option<+T> = None | Some(value: T)

  datatype Result<+R, +E> = Success(value: R) | Failure(error: E)
}
