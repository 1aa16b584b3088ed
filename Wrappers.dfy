/** The optional value used for a table cell that may be missing. */
module Wrappers {

  /** `None` is a missing cell (pandas' NaN/None); `Some(v)` a present one. */
  datatype Option<+T> = None | Some(value: T)
}
