/** A value that may be absent. */
module Maybes {
  datatype Maybe<+T> = Nothing | Just(value: T)
}
