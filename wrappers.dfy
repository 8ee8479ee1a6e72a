/** The optional value used wherever the widgets may find nothing or fail. */
module Wrappers {

  datatype Option<T> = None | Some(value: T)
}
