/** The optional value that stands for Python's `None` or a `re` match that failed. */
module Wrappers {

  datatype Option<+T> = None | Some(value: T)
}
