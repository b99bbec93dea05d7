/** Shared value types: optional values, results, and the Python exception
    kinds the scripts can raise (a raised exception ends the script). */
module Prelude {

  datatype Option<+T> = None | Some(value: T)

  datatype Result<+T, +E> = Ok(value: T) | Err(error: E)

  /** The exceptions the modelled code raises and does not catch. */
  datatype Error =
    | IndexError             // a list index past the end (`split()[k]`, `lines[k]`)
    | ValueError             // `float(...)` or `int(...)` of text that is not a number
    | KeyError               // a dictionary key that was never set
    | TypeError              // formatting `None` as a number
    | UnboundLocalError      // a loop variable read after a loop that never ran
    | FileNotFound(path: string)
}
