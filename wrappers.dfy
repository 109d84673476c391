/** Failure-carrying values shared by the modules of this model: a missing
    value (`Option`) and an operation that either succeeds or throws
    (`Result`, whose error is the message of the thrown exception). */
module Wrappers {

  datatype Option<+T> = None | Some(value: T)

  datatype Result<+T> = Ok(value: T) | Err(message: string) {
    predicate IsFailure() { Err? }

    function PropagateFailure<U>(): Result<U>
      requires Err?
    {
      Err(message)
    }

    function Extract(): T
      requires Ok?
    {
      value
    }
  }
}
