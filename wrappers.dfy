/** The optional-value datatype used for the parser's failure path. */
module Wrappers {

  /** `None` is a failed parse; `Some(v)` carries the parsed value. */
  datatype Option<+T> = None | Some(value: T)
}
