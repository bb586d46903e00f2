/** Option: the model's stand-in for a JavaScript number that may be NaN. */
module Wrappers {

  datatype Option<+T> = None | Some(value: T)
}
