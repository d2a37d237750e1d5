/** The optional value used wherever the source allows `null` or leaves a field out. */
module Wrappers {

  datatype Option<+T> = None | Some(value: T)
}
