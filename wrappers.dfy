/** Optional values and results with an error, as the controller's Swift code
    uses `Optional` and as the snapshot operations report their failures. */
module Wrappers {

  datatype Option<+T> = None | Some(value: T)

  datatype Result<+R, +E> = Ok(value: R) | Err(error: E)
}
