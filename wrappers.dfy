/** Option and Result, for the places where the bot's Python code returns None
    or raises. */
module Wrappers {

  datatype Option<+T> = None | Some(value: T)

  /** The Python exceptions the modelled handlers can raise. */
  datatype PyError =
    | KeyError        // a missing dict key (users[...], menu_data[...], user_data[...])
    | IndexError      // a list index out of range (split('_')[k], list.pop(i))
    | ValueError      // int() of a string that is not a number, or a sheet column below 1
    | TypeError       // a sheet row that is None
    | AttributeError  // update.message is None inside a button handler

  datatype Result<+T> = Ok(value: T) | Err(error: PyError)
}
