/** Runs of consecutive numbers. */
module Ranges {

  function Iota(start: nat, n: nat): (r: seq<nat>)
    ensures |r| == n
  {
    seq(n, i requires 0 <= i < n => start + i)
  }

  lemma IotaSplit(start: nat, n: nat, m: nat)
    ensures Iota(start, n) + Iota(start + n, m) == Iota(start, n + m)
  {
  }

  lemma IotaSnoc(start: nat, n: nat)
    ensures Iota(start, n + 1) == Iota(start, n) + [start + n]
  {
  }
}
