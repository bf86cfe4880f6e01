/** Failure-compatible results and the Python exceptions the modelled
    scripts raise. A `Result` stands for "returns a value" or "raises". */
module Results {

  /** The exception classes raised by the modelled code. `ValueError` carries
      the message the scripts write themselves; an error raised by the Python
      runtime (a failed `int()`, an unpacking mismatch) carries "". */
  datatype Error =
    | ValueError(msg: string)
    | IndexError
    | KeyError(key: string)
    | TypeError
    | ZeroDivisionError
    | AttributeError(name: string)
    | PanelPropertyError(name: string)

  datatype Option<+T> = None | Some(value: T) {
    function GetOr(default: T): T {
      match this
      case Some(v) => v
      case None => default
    }
  }

  datatype Result<+T> = Ok(value: T) | Err(error: Error) {
    predicate IsFailure() {
      Err?
    }

    function PropagateFailure<U>(): Result<U>
      requires Err?
    {
      Err(error)
    }

    function Extract(): T
      requires Ok?
    {
      value
    }
  }

  /** The `ValueError` raised by the Python runtime, with no message of the scripts' own. */
  const RuntimeValueError: Error := ValueError("")
}
