/** The optional value used wherever the source has `undefined`, `NaN` or a missing key. */
module Wrappers {

  datatype Option<+T> = None | Some(value: T)
}
