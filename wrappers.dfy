/** Option and Result, used for the optional JSON fields of a report and for
    the Python exceptions that abort a run. */
module Wrappers {

  datatype Option<+T> = None | Some(value: T)
  {
    /** The value, or `default` when absent, like Python's `dict.get(key, default)`. */
    function GetOr(default: T): T
    {
      match this
      case Some(v) => v
      case None => default
    }
  }

  datatype Result<+T, +E> = Ok(value: T) | Err(error: E)
}

/** The Python exceptions the parser can raise on a malformed report. Any of
    them ends the run: the script has no handler. */
module Exceptions {

  datatype Exception =
    | KeyError(key: string)            // a dict lookup of a missing key
    | IndexError(what: string)         // a list subscript out of range
    | UnboundLocalError(name: string)  // a local read before assignment
}
