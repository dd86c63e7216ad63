/** Optional values, used where a computation of the presentation script can
    produce no usable number (a failed parse, a NaN ratio). */
module Wrappers {

  datatype Option<+T> = None | Some(value: T)
}
