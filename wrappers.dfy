/** Optional values: JavaScript's `undefined` (a field the request does not carry,
    an array index past the end) is `None`. */
module Wrappers {

  datatype Option<+T> = None | Some(value: T)

}
