/** Unsigned 64-bit sums that stop at the largest value instead of wrapping. */
module Saturating {

  const MAX_UINT64: nat := 0xFFFF_FFFF_FFFF_FFFF

  type uint64 = n: nat | n <= MAX_UINT64

  function SaturatingAdd(left: uint64, right: uint64): uint64 {
    if MAX_UINT64 - left < right then MAX_UINT64 else left + right
  }

  function Capped(n: nat): uint64 {
    if n <= MAX_UINT64 then n else MAX_UINT64
  }

  /** The sum of a sequence of byte counts, not cut off anywhere. */
  function Sum(counts: seq<uint64>): nat {
    if counts == [] then 0 else Sum(counts[..|counts| - 1]) + counts[|counts| - 1]
  }

  /** What a loop of saturating additions over the same sequence leaves behind. */
  function SaturatingSum(counts: seq<uint64>): uint64 {
    if counts == [] then 0
    else SaturatingAdd(SaturatingSum(counts[..|counts| - 1]), counts[|counts| - 1])
  }

  /** Saturating at every step is the same as cutting the true sum off once, so the
      order in which a projection's fields are visited cannot be observed. */
  lemma {:induction false} SaturatingSumIsCappedSum(counts: seq<uint64>)
    ensures SaturatingSum(counts) == Capped(Sum(counts))
  {
    if counts != [] {
      SaturatingSumIsCappedSum(counts[..|counts| - 1]);
    }
  }
}
