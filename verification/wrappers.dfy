/** The optional value used wherever the source can come back empty-handed
    (a regex search that finds nothing, a pop from an empty list). */
module Wrappers {

  datatype Option<+T> = None | Some(value: T)
}
