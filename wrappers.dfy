/** Optional values, standing for JavaScript's `undefined`/`null` and for partial results. */
module Wrappers {

  datatype Option<+T> = None | Some(value: T)
}
