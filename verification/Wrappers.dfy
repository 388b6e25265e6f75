/** Option and Result, shared by every module of the project. */
module Wrappers {
  datatype Option<+T> = None | Some(value: T)

  /** With the members that `:-` needs. */
  datatype Result<+T, +E> = Ok(value: T) | Err(error: E) {
    predicate IsFailure() {
      Err?
    }

    function PropagateFailure<U>(): Result<U, E>
      requires IsFailure()
    {
      Err(error)
    }

    function Extract(): T
      requires !IsFailure()
    {
      value
    }
  }
}
