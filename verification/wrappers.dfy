/** Optional values, standing in for JavaScript's `undefined` (an absent
    property, a missing map key). */
module Wrappers {

  datatype Option<+T> = None | Some(value: T)
}
