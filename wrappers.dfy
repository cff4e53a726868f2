/** The optional value used for Python's `None`-or-value attributes. */
module Wrappers {

  datatype Option<+T> = None | Some(value: T)
}
