/** Optional values, used for the nullable results of the source (a schema
    element's base URI, a field error's default message). */
module Wrappers {

  datatype Option<+T> = None | Some(value: T)
}
