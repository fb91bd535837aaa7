/** Optional values, used where the Rust code returns `Option<T>`. */
module Wrappers {

  datatype Option<+T> = None | Some(value: T)
}
