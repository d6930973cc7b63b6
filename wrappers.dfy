/**
  Small value wrappers shared by the store, the bridge and the example.
  - Option models a JavaScript value that may be `undefined`.
  - Completion models how a JavaScript call ends: it either returns a value
    or throws (the thrown value itself is not modelled).
 */
module Wrappers {

  datatype Option<+T> = None | Some(value: T)

  datatype Completion<+T> = Returned(value: T) | Threw
}
