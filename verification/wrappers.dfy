/** Optional values, used for the simulators' "no result" outcomes. */
module Wrappers {
  datatype Option<+T> = None | Some(value: T)
}
