/** Small helper datatypes shared by the model. */
module Wrappers {

  /** An optional value: a Python attribute or dictionary key that may be absent. */
  datatype Option<+T> = None | Some(value: T)
}
