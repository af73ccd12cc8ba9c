/** Optional values: `None` stands for a JavaScript property that is absent, `undefined` or `null`. */
module Wrappers {

  datatype Option<+T> = None | Some(value: T)
}
