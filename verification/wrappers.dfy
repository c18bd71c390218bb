/** Option and Result values used where the site's code returns `undefined`,
    an optional field or a validation outcome. */
module Wrappers {

  datatype Option<+T> = None | Some(value: T)

  datatype Result<+R, +E> = Success(value: R) | Failure(error: E)
}
