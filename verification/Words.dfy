/** Machine words of the program as subsets of the integers, and its error type. */
module Words {
  const U8_MAX: int := 0xFF
  const U16_MAX: int := 0xFFFF
  const U32_MAX: int := 0xFFFF_FFFF
  const U64_MAX: int := 0xFFFF_FFFF_FFFF_FFFF
  const U128_MAX: int := 0xFFFF_FFFF_FFFF_FFFF_FFFF_FFFF_FFFF_FFFF
  const I64_MAX: int := 0x7FFF_FFFF_FFFF_FFFF
  const I64_MIN: int := -0x8000_0000_0000_0000

  type uint8 = x: int | 0 <= x <= U8_MAX
  type uint16 = x: int | 0 <= x <= U16_MAX
  type uint32 = x: int | 0 <= x <= U32_MAX
  type uint64 = x: int | 0 <= x <= U64_MAX
  type uint128 = x: int | 0 <= x <= U128_MAX
  type int16 = x: int | -0x8000 <= x < 0x8000
  type int32 = x: int | -0x8000_0000 <= x < 0x8000_0000
  type int64 = x: int | I64_MIN <= x <= I64_MAX

  datatype Error =
    | InvalidAccountOwner
    | NotGovernor
    | NotManager
    | AlreadySealed
    | NotSealed
    | Paused
    | TooManyComponents
    | DuplicateComponent
    | UnknownComponent
    | InvalidIndexMint
    | FeeTooHigh
    | MathOverflow
    | ZeroAmount
    | SlippageExceeded
    | RebalanceActive
    | NoRebalance
    | AuctionClosed
    | SellLegAtTarget
    | NavFloorBreached
    | InvalidPremium
    | ArityMismatch
    | InvalidPrice
    | TimelockNotMet
    | SupplyTooSmall
    | SameComponent
    | SellAmountExceedsExcess
    | BuyLegAtCap
    | BuyAmountExceedsCap
    // Errors of the runtime and of the token program rather than of the index program.
    | AccountAlreadyInitialized
    | InvalidInstructionData
    | TokenInsufficientFunds
    | TokenOverflow

  datatype Result<+T> = Ok(value: T) | Err(error: Error) {
    predicate IsFailure() { Err? }

    function PropagateFailure<U>(): Result<U>
      requires Err?
    {
      Err(error)
    }

    function Extract(): T
      requires Ok?
    {
      value
    }
  }

  datatype Option<+T> = None | Some(value: T)
}
