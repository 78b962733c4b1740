/** The absent-or-present wrapper used for JavaScript `null`/`undefined` slots. */
module Wrappers {

  datatype Option<+T> = None | Some(value: T)
}
