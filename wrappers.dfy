/** Small failure-compatible helpers shared by the modules of this project. */
module Wrappers {

  /** An optional value: the model's stand-in for a Go nil or a missing map entry. */
  datatype Option<+T> = None | Some(value: T)
}
