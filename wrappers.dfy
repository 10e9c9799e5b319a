/** The optional value used for the debounce wrapper's single timer handle. */
module Wrappers {
  datatype Option<+T> = None | Some(value: T)
}
