/** Option and Result wrappers, and the Python exceptions the modelled code can raise. */
module Outcomes {

  datatype Option<+T> = None | Some(value: T)

  /** The exceptions the core raises or lets escape; each is named after the Python class. */
  datatype PyError =
    | KeyError(key: string)
    | ValueError
    | TypeError
    | OverflowError
    | AttributeError
    | IndexError
    | SystemExit(code: int)

  datatype Result<+T> = Ok(value: T) | Err(error: PyError) {
    predicate IsFailure() { Err? }
    function PropagateFailure<U>(): Result<U>
      requires Err?
    {
      Err(error)
    }
    function Extract(): T
      requires Ok?
    {
      value
    }
  }
}
