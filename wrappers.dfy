/** The optional value used wherever the source works with `undefined`/`null` or `NaN`. */
module Wrappers {

  datatype Option<+T> = None | Some(value: T)
}
