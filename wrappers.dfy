/** Optional values, the exceptions the codec raises, and results that carry them. */
module Wrappers {

  /** A Python value that may be `None`. */
  datatype Option<+T> = None | Some(value: T) {
    function GetOr(default: T): T {
      match this
      case Some(v) => v
      case None => default
    }
  }

  /** The Python exception kinds the codec can raise, with the message where the
      codec's own code writes one. */
  datatype Error =
    | ValueError(message: string)
    | IndexError
    | AttributeError
    | TypeError
    | ParseError

  /** A `ValueError` raised inside a library call (`int`, `strptime`, an enum
      lookup): the library's message is not modelled. */
  const LibraryValueError := ValueError("")

  /** A returned value, or the exception raised instead. */
  datatype Result<+T> = Ok(value: T) | Err(error: Error) {
    predicate IsFailure() {
      Err?
    }

    function PropagateFailure<U>(): Result<U>
      requires Err?
    {
      Err(error)
    }

    function Extract(): T
      requires Ok?
    {
      value
    }
  }
}
