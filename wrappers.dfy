/** Option and Result, the two shapes the model uses for "maybe absent"
    (a dictionary key, an environment variable) and "value or raised error". */
module Wrappers {

  datatype Option<+T> = None | Some(value: T)

  datatype Result<+R, +E> = Success(value: R) | Failure(error: E)
}
