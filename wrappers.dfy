/** Optional values: the model's stand-in for a failed dictionary lookup or an empty pandas reduction. */
module Wrappers {

  datatype Option<T> = None | Some(value: T)
}
