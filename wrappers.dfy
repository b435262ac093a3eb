/** The optional value that `find_box` returns: a box, or Python's `None`. */
module Wrappers {

  datatype Option<+T> = None | Some(value: T)
}
