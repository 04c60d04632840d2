/** The optional value used for the gateway's rejection text and for the success payload
    (JavaScript's `null` / missing property). */
module Wrappers {

  datatype Option<+T> = None | Some(value: T)
}
