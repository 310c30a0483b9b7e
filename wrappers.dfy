/** Plain wrapper datatypes shared by the model: an optional value
    (JavaScript's `undefined` versus a value), a result carrying either a
    value or an error, and a pass/fail outcome for steps that return nothing. */
module Wrappers {

  datatype Option<+T> = None | Some(value: T)

  datatype Result<+T, +E> = Ok(value: T) | Err(error: E)

  datatype Outcome<+E> = Pass | Fail(error: E)
}
