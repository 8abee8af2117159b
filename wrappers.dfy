/** Optional values, used wherever the JavaScript code reads a field that may
    be `undefined` or `null`. */
module Wrappers {

  datatype Option<+T> = None | Some(value: T)
}
