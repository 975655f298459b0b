/** Optional values: the model's counterpart of TypeScript's `T | null`. */
module Wrappers {
  datatype Option<+T> = None | Some(value: T)
}
