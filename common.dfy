/** Failure-carrying values shared by every module of the model.
    Python's `None`, raised exceptions and validators that either return
    or raise `ValidationError` are all expressed with these. */
module Common {

  /** A value that may be absent: Python's `None` or a present value. */
  datatype Option<T> = None | Some(value: T) {
    function GetOr(default: T): T {
      match this
      case Some(v) => v
      case None => default
    }
  }

  /** Python's `not value` for an optional string: `None` or empty. */
  predicate Blank(s: Option<string>) {
    s.None? || s.value == ""
  }

  /** A computation that either returns a value or raises an error. */
  datatype Result<T, E> = Ok(value: T) | Err(error: E)

  /** A check that either passes or raises an error carrying a message,
      as Django validators (return `None` or raise `ValidationError`) do. */
  datatype Outcome = Pass | Fail(message: string)
}
