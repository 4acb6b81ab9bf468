/** The optional value used for "no exit reached" and for an exit with no inward neighbour. */
module Wrappers {
  datatype Option<T> = None | Some(value: T)
}
