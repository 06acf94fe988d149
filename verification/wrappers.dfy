/** Failure-carrying datatypes shared by every module of the model: the source's
    `Optional[...]` values, its exceptions, and calls that either succeed or raise. */
module Wrappers {

  /** `None` models Python's `None`; `Some(v)` a present value. */
  datatype Option<+T> = None | Some(value: T)

  /** A computation that returns a value or raises an exception carrying `error`. */
  datatype Result<+T, +E> = Ok(value: T) | Err(error: E)

  /** A call that returns nothing useful (`-> None`) or raises. */
  datatype Outcome<+E> = Pass | Fail(error: E)

  /** Python truthiness of an `Optional[str]`: present and non-empty. */
  predicate Truthy(s: Option<string>)
  {
    s.Some? && |s.value| > 0
  }
}
