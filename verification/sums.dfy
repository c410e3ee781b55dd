/**
 * Plain sums of integer sequences: the offsets averaged by a synchronisation
 * cycle and the counts and sizes added up by the block metrics.
 */
module Sums {
  /** The sum of a sequence, accumulated from the front as a Go loop does. */
  function Sum(xs: seq<int>): int {
    if xs == [] then 0 else Sum(xs[..|xs| - 1]) + xs[|xs| - 1]
  }
}
