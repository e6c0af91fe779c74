/** Failure-carrying values shared by the other modules: an exception raised
    by the Python code becomes an `Err`/`None`/`Fail` result here. */
module Wrappers {

  datatype Option<+T> = None | Some(value: T)

  datatype Result<+T, +E> = Ok(value: T) | Err(error: E)

  datatype Outcome<+E> = Pass | Fail(error: E)
}
