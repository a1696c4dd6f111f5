/** Optional values: a PHP value that may be `false`/`null` (an unset transient,
    an unset option, a client that could not log in). */
module Wrappers {

  datatype Option<+T> = None | Some(value: T)
}
