/** Machine integers, principals and call outcomes shared by both exchange canisters. */
module Primitives {

  newtype byte = x: int | 0 <= x < 0x100

  /** The byte form of a principal (`Principal::as_slice`); a principal is at most 29 bytes long. */
  type Principal = p: seq<byte> | |p| <= 29 witness []

  const U128_LIMIT: nat := 0x1_0000_0000_0000_0000_0000_0000_0000_0000
  type U128 = n: nat | n < 0x1_0000_0000_0000_0000_0000_0000_0000_0000

  const U64_LIMIT: nat := 0x1_0000_0000_0000_0000
  type U64 = n: nat | n < 0x1_0000_0000_0000_0000

  datatype Option<+T> = None | Some(value: T)

  /**
   * The outcome of one canister message: it returns a value, or it traps
   * (an `unwrap` of nothing, a checked `+=`/`-=` that over- or underflows,
   * a division by zero).  A trap rolls back every change the message made.
   */
  datatype Outcome<+T> = Returns(value: T) | Traps

  function Min(x: nat, y: nat): nat { if x <= y then x else y }

  /** `nat_to_u128`: a candid `Nat` narrowed to `u128`; the `unwrap` traps on a value that does not fit. */
  function NatToU128(n: nat): (r: Outcome<U128>)
    ensures r.Returns? <==> n < U128_LIMIT
    ensures r.Returns? ==> r.value == n
  {
    if n < U128_LIMIT then Returns(n) else Traps
  }
}
