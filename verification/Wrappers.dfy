/** The one generic datatype shared by all modules: Go's optional pointers and nil-able values. */
module Wrappers {
  datatype Option<+T> = None | Some(value: T)
}
