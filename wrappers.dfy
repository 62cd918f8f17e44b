/** Option and Result types shared by the whole model, and the Python exceptions
    that the geometry core raises, written out as values. */
module Wrappers {

  /** Python's `None` or a value. */
  datatype Option<+T> = None | Some(value: T)

  /** The exception classes the core raises, each with its message.
      `NotModelled` stands for a collision routine that the dispatcher finds by
      name but whose module is not part of this model. */
  datatype Error =
    | AttributeError(message: string)
    | TypeError(message: string)
    | IndexError(message: string)
    | ZeroDivisionError(message: string)
    | ValueError(message: string)
    | Exception(message: string)
    | NotModelled(routine: string)

  /** A computation that either returns a value or raises a Python exception. */
  datatype Result<+T> = Ok(value: T) | Err(error: Error) {
    predicate IsFailure() { Err? }

    function PropagateFailure<U>(): Result<U>
      requires Err?
    {
      Err(error)
    }

    function Extract(): T
      requires Ok?
    {
      value
    }
  }

  /** The message CPython gives for a float division by zero. */
  const DivisionByZero := "float division by zero"

  /** The message CPython gives for a list index past either end. */
  const ListIndexOutOfRange := "list index out of range"
}
