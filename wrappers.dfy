/** The optional value of the source's `T | null | undefined` fields and of parse results
    that may be NaN. */
module Wrappers {

  datatype Option<+T> = None | Some(value: T)

}
