/** The one generic datatype the models share. */
module Wrappers {

  /** A value that may be absent: the source's `null`, `undefined` or missing row. */
  datatype Option<+T> = None | Some(value: T)
}
