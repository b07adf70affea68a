/** Stock types shared by the models. */
module Wrappers {
  type Byte = bv8

  datatype Option<+T> = None | Some(value: T)
}
