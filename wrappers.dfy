/** Option and Result, the failure-compatible wrappers the rest of the model uses
    for Python's None and for exceptions / failed assertions. */
module Wrappers {

  datatype Option<+T> = None | Some(value: T)

  /** Ok(value) or Err(message): a raised exception carries its message. */
  datatype Result<+T> = Ok(value: T) | Err(error: string) {

    predicate IsFailure() {
      Err?
    }

    function PropagateFailure<U>(): Result<U>
      requires Err?
    {
      Err(error)
    }

    function Extract(): T
      requires Ok?
    {
      value
    }
  }
}
