/** A value, or none: nil pointers, nil slices and nil functions. */
module Wrappers {
  datatype Maybe<T> = Nothing | Just(value: T)
}
