/** How the model represents absence and exceptions: `Option` for a
    reference that may be `null`, `Error` for the exceptions the modelled
    code can raise, and `Result` for a computation that either yields a
    value or stops with one of those exceptions. */
module Results {

  /** An optional value; `None` stands for C#'s `null`. */
  datatype Option<+T> = None | Some(value: T)

  /** The exceptions the modelled code can raise.
      - `MapNotFound` / `ActionNotFound`: a lookup made with `throwIfNotFound: true` missed.
      - `NullReference`: the handler touched its input wrapper before creating it. */
  datatype Error =
    | MapNotFound(mapName: string)
    | ActionNotFound(inMap: string, actionName: string)
    | NullReference

  /** A value, or the error that prevented computing it. Usable with `:-`. */
  datatype Result<+T> = Success(value: T) | Failure(error: Error) {

    predicate IsFailure() {
      Failure?
    }

    function PropagateFailure<U>(): Result<U>
      requires Failure?
    {
      Failure(error)
    }

    function Extract(): T
      requires Success?
    {
      value
    }
  }
}
