/** The crate's error type and the result shapes its operations return. */
module Errors {

  /** The four ways an operation can fail. `UnsupportedBlend` carries the
      names of the destination and source channel structures. */
  datatype Error =
    | DimensionMismatch
    | UnsupportedType
    | UnsupportedBlend(dst: string, src: string)
    | NoAlphaChannel

  datatype Option<+T> = None | Some(value: T)

  /** A value or an error; usable with `:-`. */
  datatype Result<+T> = Ok(value: T) | Err(error: Error) {
    predicate IsFailure() { Err? }
    function PropagateFailure<U>(): Result<U>
      requires Err?
    {
      Err(error)
    }
    function Extract(): T
      requires Ok?
    {
      value
    }
  }

  /** The result of an operation that returns nothing but may fail
      (`Result<(), Error>`). */
  datatype Outcome = Pass | Fail(error: Error)

  function OutcomeOf<T>(r: Result<T>): Outcome {
    if r.Ok? then Pass else Fail(r.error)
  }
}
