/** The exceptions the pages can raise, and the wrappers that carry them. */
module Errors {

  /** The Python exceptions raised by the column bookkeeping. */
  datatype Error =
    | KeyError(keys: seq<string>)   // a missing DataFrame column or session-state key
    | ValueError(item: string)      // `list.remove(x)` with `x` not in the list
    | TypeError                     // a stored selection that is not a list of names

  datatype Result<+T> = Ok(value: T) | Err(error: Error)

  datatype Option<+T> = None | Some(value: T)
}
