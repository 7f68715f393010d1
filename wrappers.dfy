/** Optional values: JavaScript's `null`/`undefined` results (a failed `find`, an absent
    URL parameter, no active coupon). */
module Wrappers {

  datatype Option<+T> = None | Some(value: T)
}
