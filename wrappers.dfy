/** Optional values, used wherever a lookup or a parse may come back empty. */
module Wrappers {

  datatype Option<+T> = None | Some(value: T)
}
