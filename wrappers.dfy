/** Optional values, standing for TypeScript's `T | null` and optional fields. */
module Wrappers {

  datatype Option<+T> = None | Some(value: T)
}
