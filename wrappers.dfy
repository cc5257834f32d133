/** Option and Result types shared by every module of the image-compilation model. */
module Wrappers {

  datatype Option<+T> = None | Some(value: T)

  /** The exceptions the Python code raises (and does not catch), by kind. */
  datatype Error =
    | ValueError(reason: string)
    | IndexError(reason: string)
    | KeyError(key: string)
    | ZeroDivisionError
    | UnboundLocalError(name: string)
    | DecodeError(path: string)

  datatype Result<+T> = Ok(value: T) | Err(error: Error) {
    predicate IsFailure() { Err? }

    function PropagateFailure<U>(): Result<U>
      requires Err?
    {
      Err(error)
    }

    function Extract(): T
      requires Ok?
    {
      value
    }
  }
}
