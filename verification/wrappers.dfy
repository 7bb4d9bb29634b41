/** Optional values, used for readings the sensor cannot produce (a division by zero in the source). */
module Wrappers {

  datatype Option<+T> = None | Some(value: T)
}
