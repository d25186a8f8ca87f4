/** The optional value used wherever the extension reads something that may be
    missing: a reply that never came, a field left undefined. */
module Wrappers {

  datatype Option<+T> = None | Some(value: T)
}
