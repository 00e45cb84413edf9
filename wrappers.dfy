/** Option and Result, for absent values and for raised exceptions. */
module Wrappers {

  datatype Option<+T> = None | Some(value: T)

  /** A raised exception is modelled as `Err` with its message. */
  datatype Result<+T> = Ok(value: T) | Err(error: string)
  {
    predicate IsFailure()
    {
      Err?
    }

    function PropagateFailure<U>(): Result<U>
      requires Err?
    {
      Err(error)
    }

    function Extract(): T
      requires Ok?
    {
      value
    }
  }
}
