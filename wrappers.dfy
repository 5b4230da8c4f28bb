/** Optional values: `None` stands for PHP's `null` / `false` failure returns. */
module Wrappers {

  datatype Option<+T> = None | Some(value: T)
}
