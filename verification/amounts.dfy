/** Fixed-width unsigned amounts and their checked arithmetic. Dafny integers
    are unbounded, so the 128-bit width of `Uint128` is a subset type and every
    addition or subtraction that could leave it goes through a checked
    operation that reports the failure instead of wrapping. */
module Amounts {
  import opened Results

  const MAX_UINT128: nat := 0xFFFF_FFFF_FFFF_FFFF_FFFF_FFFF_FFFF_FFFF

  /** An unsigned 128-bit token amount. */
  type Uint128 = n: nat | n <= MAX_UINT128

  /** An unsigned 8-bit integer (the token's `decimals`). */
  type Uint8 = n: nat | n < 0x100

  /** `Uint128::checked_add`: the exact sum, or Overflow past the width. */
  function CheckedAdd(a: Uint128, b: Uint128): (r: Result<Uint128>)
    ensures r.Ok? <==> a + b <= MAX_UINT128
    ensures r.Ok? ==> r.value == a + b
    ensures r.Err? ==> r.error == Overflow
  {
    if a + b <= MAX_UINT128 then Ok(a + b) else Err(Overflow)
  }

  /** `Uint128::checked_sub`: the exact difference, or Underflow below zero. */
  function CheckedSub(a: Uint128, b: Uint128): (r: Result<Uint128>)
    ensures r.Ok? <==> b <= a
    ensures r.Ok? ==> r.value == a - b
    ensures r.Err? ==> r.error == Underflow
  {
    if b <= a then Ok(a - b) else Err(Underflow)
  }

  /** Subtracting what was just added gives back the original amount, and
      adding back what was just subtracted cannot overflow. */
  lemma CheckedRoundTrip(a: Uint128, b: Uint128)
    ensures CheckedAdd(a, b).Ok? ==> CheckedSub(CheckedAdd(a, b).value, b) == Ok(a)
    ensures CheckedSub(a, b).Ok? ==> CheckedAdd(CheckedSub(a, b).value, b) == Ok(a)
  {
  }
}
