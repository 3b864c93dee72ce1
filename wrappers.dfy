/** Optional values, for a collaborator that may find nothing. */
module Wrappers {

  datatype Option<+T> = None | Some(value: T)
}
