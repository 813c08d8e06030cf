/** Optional values: a JavaScript `undefined`/`null`, or a value. */
module Wrappers {

  datatype Option<+T> = None | Some(value: T)
}
