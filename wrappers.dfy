/** The nullable value of the JavaScript source: `None` stands for `null`. */
module Wrappers {
  datatype Option<+T> = None | Some(value: T)
}
