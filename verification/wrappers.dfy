/** An optional value: the Python code's `None` or a value. */
module Wrappers {

  datatype Option<+T> = None | Some(value: T)
}
