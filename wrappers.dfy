/** The Option type used for Python's "None" and for operations that can raise. */
module Wrappers {

  datatype Option<+T> = None | Some(value: T)
}
