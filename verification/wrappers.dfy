/** The Some/None datatype used wherever the Python code stores or returns `None`. */
module Wrappers {

  datatype Option<+T> = None | Some(value: T)
}
