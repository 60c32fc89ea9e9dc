/** Option, the shape the volume-name parser returns. */
module Wrappers {

  datatype Option<+T> = None | Some(value: T)
}
