/** Failure-compatible result types shared by the parsing and market-data modules. */
module Wrappers {

  datatype Option<+T> = None | Some(value: T)

  /** The Go convention `(value, err)`: exactly one of a value or an error. */
  datatype Result<+T, +E> = Ok(value: T) | Err(error: E) {
    predicate IsFailure() { Err? }

    function PropagateFailure<U>(): Result<U, E>
      requires Err?
    {
      Err(error)
    }

    function Extract(): T
      requires Ok?
    {
      value
    }
  }
}
