/** The optional value used for the engine's `Option` returns. */
module Wrappers {

  datatype Option<+T> = None | Some(value: T)
}
