/** Optional values and the outcome of a call that may let a Python exception escape. */
module Wrappers {
  /** A value that may be absent, as Python's `None`-or-value. */
  datatype Option<+T> = None | Some(value: T)
  {
    function GetOr(default: T): T
    {
      if Some? then value else default
    }
  }

  /** A call either returns a value or raises an exception its caller does not catch. */
  datatype Outcome<+T> = Ok(value: T) | Raised
}
