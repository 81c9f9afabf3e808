/** More than two thirds of the producers. */
module Quorums {
  function Quorum(n: nat): nat {
    n * 2 / 3 + 1
  }
}
