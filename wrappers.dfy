/** The optional value used for the components' optional fields and for
    the chat's "no contact selected" state. */
module Wrappers {

  datatype Option<+T> = None | Some(value: T)
}
