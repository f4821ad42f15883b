/** Optional values, used where the Java code has a nullable reference or a
    parse that may fail. */
module Wrappers {

  datatype Option<+T> = None | Some(value: T)
}
