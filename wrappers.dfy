/** Optional values; stands for JavaScript's `undefined`/`null` where the
    program tests a value for presence. */
module Wrappers {
  datatype Option<+T> = None | Some(value: T)
}
