/** The optional value used for the persisted storage entry: `None` is a
    missing key (`localStorage.getItem` returning `null`). */
module Wrappers {

  datatype Option<+T> = None | Some(value: T)
}
