/** The optional result of password generation: Python's `None` or a value. */
module Wrappers {

  datatype Option<+T> = None | Some(value: T)
}
