/** The optional value that stands for a null, `None` or unset field. */
module Wrappers {

  datatype Option<+T> = None | Some(value: T)
}
