/** Go's `byte`, shared by the modules that work on byte strings. */
module Bytes {
  newtype byte = x: int | 0 <= x < 256
}
