/** The optional value used for `parseInt` results (None stands for NaN) and
    for the highlighted vertex (None stands for `undefined`). */
module Wrappers {

  datatype Option<+T> = None | Some(value: T)
}
