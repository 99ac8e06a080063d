/** The optional value used wherever the source has `null`, `undefined` or `-1`. */
module Wrappers {

  datatype Option<+T> = None | Some(value: T)
}
