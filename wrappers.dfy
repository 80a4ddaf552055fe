/** The optional value used for Python's `None` and for parses that may fail. */
module Wrappers {

  datatype Option<+T> = None | Some(value: T)
}
