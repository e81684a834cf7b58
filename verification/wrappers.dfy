/** The optional value used for the source's raised exceptions (IndexError, KeyError). */
module Wrappers {
  datatype Option<+T> = None | Some(value: T)
}
