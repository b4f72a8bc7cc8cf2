/** The optional value used for the container's state fields that stay
    `undefined` until the first successful lookup. */
module Wrappers {
  datatype Option<T> = None | Some(value: T)
}
