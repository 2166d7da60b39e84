/** The optional-value datatype the rest of the model uses for values that may be absent:
    a parse that fails, a device without its record, a command that is not sent. */
module Wrappers {

  datatype Option<+T> = None | Some(value: T)
}
