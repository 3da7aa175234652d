/** Optional values: the model's stand-in for a nullable pointer or shared handle. */
module Wrappers {

  datatype Option<+T> = None | Some(value: T)
}
