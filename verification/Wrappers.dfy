/** Values that may be missing: what the source returns as (value, error) or (value, exists). */
module Wrappers {
  datatype Option<+T> = None | Some(value: T)
}
