/** The optional value used wherever the page may or may not supply something:
    an attribute that can be absent, a JSON field that can be missing. */
module Wrappers {

  datatype Option<+T> = None | Some(value: T)
}
