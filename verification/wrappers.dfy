/** Optional values and call results shared by every module of the model:
    Option stands for a Java reference that may be null (or an Optional),
    Result for a call that either returns a value or throws, and Outcome
    for a void call that either completes or throws. */
module Wrappers {

  datatype Option<+T> = None | Some(value: T)

  datatype Result<+T, +E> = Ok(value: T) | Err(error: E)

  datatype Outcome<+E> = Pass | Fail(error: E)
}
