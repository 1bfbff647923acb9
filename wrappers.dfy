// Option and Result: Python's `None` and raised exceptions, as values.
module Wrappers {
  datatype Option<T> = None | Some(value: T)

  /** `Err(msg)` stands for an exception the source raises; `msg` names the check that failed. */
  datatype Result<T> = Ok(value: T) | Err(msg: string)
  {
    predicate IsFailure() { Err? }

    function PropagateFailure<U>(): Result<U>
      requires Err?
    {
      Err(msg)
    }

    function Extract(): T
      requires Ok?
    {
      value
    }
  }
}
