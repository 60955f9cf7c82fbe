/** Optional values, standing in for TypeScript's optional object properties (`ticker?: string`). */
module Wrappers {

  datatype Option<+T> = None | Some(value: T)
}
