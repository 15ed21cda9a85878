/** A minimal optional-value datatype, used where the modelled Python code
    either finds something or does not (a missing dictionary key, an
    attempt that was never made). */
module Wrappers {

  datatype Option<+T> = None | Some(value: T)
}
