/** Python's `None`-or-value results, and calls that may raise. */
module Wrappers {

  datatype Option<+T> = None | Some(value: T)

  /** A call that returns normally, or raises `IndexError` (a list index out of range). */
  datatype Outcome<+T> = Returned(value: T) | RaisedIndexError
}
