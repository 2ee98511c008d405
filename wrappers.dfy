/** A missing value: pandas' NaN / NaT / None in a record column. */
module Wrappers {
  datatype Option<+T> = None | Some(value: T)
}
