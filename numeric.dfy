/** Rust's fixed-width integers as the contract uses them, with the arithmetic
    checks of a build whose overflow checks are on: an addition, subtraction or
    multiplication that leaves the type's range panics, and on the host a panic
    aborts the whole call and reverts everything it wrote. Such a panic is the
    error value of `Result` here; `require!` failures are error values too. */
module Numeric {

  const U8_MAX: int := 255
  const U128_MAX: int := 340282366920938463463374607431768211455
  /** 2^128: the offset of the two's-complement reinterpretation in `as u128`. */
  const U128_MODULUS: int := U128_MAX + 1
  const I64_MIN: int := -9223372036854775808
  const I64_MAX: int := 9223372036854775807

  type U8 = x: int | 0 <= x <= U8_MAX
  type U128 = x: int | 0 <= x <= U128_MAX
  type I64 = x: int | I64_MIN <= x <= I64_MAX

  /** Why a call aborts. The first group are the contract's own `require!`
      messages, the second the arithmetic panics. */
  datatype Error =
    | NotStaked          // "Stake: You didn't stake any tokens!"
    | AdvisorNotStaked   // "Stake: Advisor not stake any tokens!"
    | InvalidAmount      // "Stake: Invalid amount!" (stake), "Stake: Invalid amount" (unstake)
    | StakedLessThanAmount // "Stake: You staked less token than amount"
    | NoReward           // "Stake: You have no reward yet!"
    | InvalidVote        // "Stake: Invalid vote!"
    | AddOverflow        // "attempt to add with overflow"
    | SubOverflow        // "attempt to subtract with overflow"
    | MulOverflow        // "attempt to multiply with overflow"

  datatype Result<+T> = Ok(value: T) | Err(error: Error) {
    predicate IsFailure() { Err? }
    function PropagateFailure<U>(): Result<U> requires Err? { Err(error) }
    function Extract(): T requires Ok? { value }
  }

  function AddU128(a: U128, b: U128): Result<U128> {
    if a + b <= U128_MAX then Ok(a + b) else Err(AddOverflow)
  }

  function SubU128(a: U128, b: U128): Result<U128> {
    if a >= b then Ok(a - b) else Err(SubOverflow)
  }

  function MulU128(a: U128, b: U128): Result<U128> {
    if a * b <= U128_MAX then Ok(a * b) else Err(MulOverflow)
  }

  function AddU8(a: U8, b: U8): Result<U8> {
    if a + b <= U8_MAX then Ok(a + b) else Err(AddOverflow)
  }

  function SubU8(a: U8, b: U8): Result<U8> {
    if a >= b then Ok(a - b) else Err(SubOverflow)
  }

  function SubI64(a: I64, b: I64): Result<I64> {
    if I64_MIN <= a - b <= I64_MAX then Ok(a - b) else Err(SubOverflow)
  }

  /** Rust's `d as u128` for an `i64` d: sign extension, so a negative d
      becomes 2^128 + d. */
  function I64AsU128(d: I64): (r: U128)
    ensures d >= 0 ==> r == d
    ensures d < 0 ==> r > U128_MAX + I64_MIN
    ensures (r - d) % U128_MODULUS == 0
  {
    if d >= 0 then d else U128_MODULUS + d
  }
}
