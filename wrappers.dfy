/** Optional values: `None` stands for a field that is `undefined` or `null`
    in the untyped records the component receives. */
module Wrappers {

  datatype Option<+T> = None | Some(value: T)
}
