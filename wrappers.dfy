/** Optional values and Python-style call outcomes shared by every module. */
module Wrappers {

  /** A value that may be absent (Python's `None`). */
  datatype Option<+T> = None | Some(value: T) {
    predicate IsFailure() { None? }

    function PropagateFailure<U>(): Option<U>
      requires None?
    {
      None
    }

    function Extract(): T
      requires Some?
    {
      value
    }
  }

  /** The exceptions the modelled Python code can raise. */
  datatype Error = ValueError | TypeError | ZeroDivisionError

  /** What a Python function that may return `None` or raise does:
      it returns a value, returns `None`, or raises. */
  datatype Outcome<+T> = Value(value: T) | NoValue | Raised(error: Error)
}
