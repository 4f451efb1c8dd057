/** The u64 counters of the analyzer: every roll-up adds with saturation. */
module Saturating {

  const U64_MAX: nat := 0xFFFF_FFFF_FFFF_FFFF
  const U32_MAX: nat := 0xFFFF_FFFF

  type U64 = x: nat | x <= U64_MAX

  /** Clamp an exact sum to what a saturating u64 counter can hold. */
  function Sat(exact: nat): U64 {
    if exact > U64_MAX then U64_MAX else exact
  }

  function SatAdd(a: U64, b: U64): U64 {
    Sat(a + b)
  }

  function SatSub(a: U64, b: U64): U64 {
    if a < b then 0 else a - b
  }

  /** Saturating early or late gives the same counter: a saturating sum forgets its bracketing. */
  lemma SatAddOfSat(a: nat, b: nat)
    ensures SatAdd(Sat(a), Sat(b)) == Sat(a + b)
  {
  }

  /** A clamped sum is the largest counter value that is not above the exact one. */
  lemma SatIsNearest(exact: nat, u: U64)
    ensures Sat(exact) <= exact && (u <= exact ==> u <= Sat(exact))
    ensures Sat(exact) == exact <==> exact <= 0xFFFF_FFFF_FFFF_FFFF
  {
  }
}
