/** The optional value used wherever the source returns `null` or leaves a field out. */
module Wrappers {

  datatype Option<+T> = None | Some(value: T)
}
