/** Option and Result, used for JavaScript's NaN and for the thrown or returned errors of the form code. */
module Wrappers {

  datatype Option<+T> = None | Some(value: T)

  /** A result that can be chained with `:-`. */
  datatype Result<+T, +E> = Ok(value: T) | Err(error: E) {
    predicate IsFailure() { Err? }

    function PropagateFailure<U>(): Result<U, E>
      requires Err?
    {
      Err(error)
    }

    function Extract(): T
      requires Ok?
    {
      value
    }
  }
}
