/** An optional value, for the decoder's std::optional fields and for a
    source file that may fail to open. */
module Wrappers {

  datatype Option<+T> = None | Some(value: T)
}
