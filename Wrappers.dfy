/** Optional values: `None` stands for JavaScript's `undefined` in a record field. */
module Wrappers {

  datatype Option<+T> = None | Some(value: T)
}
