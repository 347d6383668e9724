/** Optional values, the exceptions the pipeline can raise, and a result type
    that carries either a value or the exception that aborted the computation. */
module Outcomes {

  datatype Option<+T> = None | Some(value: T)

  /** The Python exceptions the modelled code can raise. */
  datatype Error =
    | KeyError(key: string)          // a dict or vocabulary lookup of an absent key
    | IndexError                     // a sequence or tensor index out of range
    | ValueError(reason: string)     // a malformed format string, int() literal or empty argmax
    | UnsupportedField(field: string) // a str.format field this model does not interpret

  datatype Result<+T> = Ok(value: T) | Err(error: Error) {
    predicate IsFailure() { Err? }

    function PropagateFailure<U>(): Result<U>
      requires Err?
    {
      Err(error)
    }

    function Extract(): T
      requires Ok?
    {
      value
    }
  }
}
