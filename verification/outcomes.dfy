/** Failure-carrying values shared by every command of the model.
    The commands either raise a Python exception, let one propagate from the
    API layer, or exit with a message; each of these becomes an `Err`. */
module Outcomes {

  /** A value that may be absent (Python's `None`). */
  datatype Option<+T> = None | Some(value: T) {

    /** The value, or `default` when absent (Python's `d.get(k, default)`). */
    function GetOr(default: T): T {
      match this
      case Some(v) => v
      case None => default
    }
  }

  /** Everything that can stop a command. */
  datatype Error =
    | NotFound(ident: string)    // API layer: no resource matches the identifier
    | Ambiguous(ident: string)   // API layer: several resources match the name
    | Upstream(status: int)      // API layer: non-2xx response or network failure
    | IndexError                 // Python IndexError
    | KeyError(key: string)      // Python KeyError
    | ValueError(text: string)   // Python ValueError, from int(text, 16)
    | NoOnlineRouters            // SystemExit("No online routers found")

  /** The outcome of a step that may fail; usable with `:-`. */
  datatype Result<+T> = Ok(value: T) | Err(error: Error) {

    predicate IsFailure() {
      Err?
    }

    function PropagateFailure<U>(): Result<U>
      requires Err?
    {
      Err(error)
    }

    function Extract(): T
      requires Ok?
    {
      value
    }
  }
}
