/** Optional values, used for fallible results throughout the model. */
module Wrappers {

  datatype Option<+T> = None | Some(value: T)

}
