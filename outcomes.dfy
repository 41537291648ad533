/** Failure-carrying results shared by every module of the model. A Python
    exception or an undefined (NaN) numeric result becomes a `None` or an
    `Err` here instead of a precondition. */
module Outcomes {

  datatype Option<+T> = None | Some(value: T)

  datatype Result<+T, +E> = Ok(value: T) | Err(error: E)
}
