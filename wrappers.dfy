/** A JavaScript value that may be `null` (or a dialog closed without a value). */
module Wrappers {

  datatype Option<+T> = None | Some(value: T)
}
