/** Optional values: a JavaScript property that may be `undefined`/`null`. */
module Wrappers {

  datatype Option<+T> = None | Some(value: T)
}
