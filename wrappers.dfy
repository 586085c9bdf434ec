/** The optional value used for Python's `None` and for parse results. */
module Wrappers {

  datatype Option<+T> = None | Some(value: T)
}
