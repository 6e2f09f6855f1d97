/** Optional values: `None` stands for a Java `null` or for a call that ends in an exception. */
module Wrappers {

  datatype Option<+T> = None | Some(value: T)

}
