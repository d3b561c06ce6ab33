/** Optional values, standing for the `?:` fields and `| null` types of the storefront. */
module Wrappers {
  datatype Option<+T> = None | Some(value: T)
}
