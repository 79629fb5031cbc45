/** Limits of the distributed machine. */
module Popcorn {
  const MAX_POPCORN_NODES := 32
}
