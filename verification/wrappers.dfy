/** Optional values, used for the viewer's globals that may still be undefined
    and for elements a document may lack. */
module Wrappers {

  datatype Option<+T> = None | Some(value: T)
}
