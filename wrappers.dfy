/** The optional value used for outcomes that may be missing, such as a failed
    ground-elevation lookup or an arithmetic operation outside its domain. */
module Wrappers {

  datatype Option<+T> = None | Some(value: T)
}
