/** Optional values, results, and the Python exceptions the crawler lets escape. */
module Outcomes {

  /** Python's `None` or a value. */
  datatype Option<T> = None | Some(value: T)

  /** A value, or the exception raised instead of returning one. */
  datatype Result<T, E> = Ok(value: T) | Err(error: E)

  /** Exceptions raised by the modelled code and never caught by it. */
  datatype Raised =
    | ValueError          // `datetime.strptime` on a string that is not a date
    | OverflowError       // `datetime + timedelta(days=1)` past 9999/12/31
    | UnboundLocalError   // `number_of_pages` read before it was ever assigned
}
