/** The checked fixed-point arithmetic of the program. Deliveries round up, payouts round down. */
module FixedPoint {
  import opened Words
  import opened Division

  const UNIT_SCALE: nat := 1_000_000_000
  const BPS: nat := 10_000
  const SECONDS_PER_YEAR: nat := 31_536_000

  /** Denominator of the streaming fee: basis points times seconds in a year. */
  const FEE_DENOMINATOR: nat := BPS * SECONDS_PER_YEAR

  function MulDivFloor(a: uint128, b: uint128, d: uint128): Result<uint128> {
    if d == 0 || a * b > U128_MAX then Err(MathOverflow)
    else
      FloorBounds(a * b, d);
      Ok(a * b / d)
  }

  function MulDivCeil(a: uint128, b: uint128, d: uint128): Result<uint128> {
    if d == 0 || a * b > U128_MAX then Err(MathOverflow)
    else
      CeilWithin(a * b, d);
      Ok(CeilDiv(a * b, d))
  }

  function ToU64(x: uint128): Result<uint64> {
    if x > U64_MAX then Err(MathOverflow) else Ok(x)
  }

  /** Price of an entry in one component: the claim of `amount` on it, rounded up. */
  function UnitsIn(units: uint64, amount: uint64): Result<uint64> {
    var x :- MulDivCeil(units, amount, UNIT_SCALE);
    ToU64(x)
  }

  /** Yield of an exit in one component: the claim of `amount` on it, rounded down. */
  function UnitsOut(units: uint64, amount: uint64): Result<uint64> {
    var x :- MulDivFloor(units, amount, UNIT_SCALE);
    ToU64(x)
  }

  /** The claim of a whole token on a vault, rounded down. */
  function UnitsFromBalance(balance: uint64, supply: uint64): Result<uint64> {
    if supply == 0 then Err(SupplyTooSmall)
    else
      var x :- MulDivFloor(balance, UNIT_SCALE, supply);
      ToU64(x)
  }

  function Pow10(n: nat): (p: nat)
    ensures p >= 1
  {
    if n == 0 then 1 else 10 * Pow10(n - 1)
  }

  function CheckedPow10(n: uint8): Result<uint128> {
    if Pow10(n) > U128_MAX then Err(MathOverflow) else Ok(Pow10(n))
  }

  /** Balance times price, scaled by the decimals and rounded down. */
  function ValueE9(balance: uint64, decimals: uint8, priceE9: uint64): Result<uint128> {
    var scale :- CheckedPow10(decimals);
    MulDivFloor(balance, priceE9, scale)
  }

  /** The least amount whose worth covers `value`. */
  function AmountFromValueCeil(value: uint128, decimals: uint8, priceE9: uint64): Result<uint64> {
    if priceE9 == 0 then Err(InvalidPrice)
    else
      var scale :- CheckedPow10(decimals);
      var x :- MulDivCeil(value, scale, priceE9);
      ToU64(x)
  }

  /** Streaming fee over `dt` seconds, charged as dilution and grossed up for its own mint. */
  function StreamingFeeTokens(supply: uint64, feeBps: uint16, dt: int64): Result<uint64> {
    if supply == 0 || feeBps == 0 || dt <= 0 then Ok(0)
    else
      var num := feeBps * dt;
      if num >= FEE_DENOMINATOR then Err(MathOverflow)
      else
        var x :- MulDivFloor(supply, num, FEE_DENOMINATOR - num);
        ToU64(x)
  }

  /** Linear interpolation between two premiums, truncated toward zero; an error outside the window. */
  function PremiumAt(startBps: int16, endBps: int16, startTs: int64, endTs: int64, now: int64): Result<int32> {
    if now < startTs || now > endTs then Err(AuctionClosed)
    else if endTs <= startTs then Err(InvalidPremium)
    else
      var p := startBps + TruncDiv((endBps - startBps) * (now - startTs), endTs - startTs);
      if -0x8000_0000 <= p < 0x8000_0000 then Ok(p) else Err(MathOverflow)
  }

  /** Fee charged on an issue or a redemption of `amount`, rounded up. */
  function FlatFee(amount: uint64, feeBps: uint16): Result<uint64> {
    var x :- MulDivCeil(amount, feeBps, BPS);
    ToU64(x)
  }

  // ---------------------------------------------------------------------------------------------
  // What the checks never get in the way of
  // ---------------------------------------------------------------------------------------------

  /** Widening to 128 bits makes every product of two 64-bit words representable. */
  lemma ProductFits(a: uint64, b: uint64)
    ensures a * b <= U128_MAX
  {
    assert a * b <= U64_MAX * b;
    assert U64_MAX * b <= U64_MAX * U64_MAX;
  }

  lemma UnitsFromBalanceValue(balance: uint64, supply: uint64)
    requires supply > 0
    ensures UnitsFromBalance(balance, supply)
         == if balance * UNIT_SCALE / supply > U64_MAX then Err(MathOverflow) else Ok(balance * UNIT_SCALE / supply)
  {
  }

  lemma UnitsInValue(units: uint64, amount: uint64)
    ensures UnitsIn(units, amount)
         == if CeilDiv(units * amount, UNIT_SCALE) > U64_MAX then Err(MathOverflow)
           else Ok(CeilDiv(units * amount, UNIT_SCALE))
  {
    ProductFits(units, amount);
  }

  lemma UnitsOutValue(units: uint64, amount: uint64)
    ensures UnitsOut(units, amount)
         == if units * amount / UNIT_SCALE > U64_MAX then Err(MathOverflow) else Ok(units * amount / UNIT_SCALE)
  {
    ProductFits(units, amount);
  }

  lemma FlatFeeValue(amount: uint64, feeBps: uint16)
    ensures FlatFee(amount, feeBps)
         == if CeilDiv(amount * feeBps, BPS) > U64_MAX then Err(MathOverflow) else Ok(CeilDiv(amount * feeBps, BPS))
  {
    ProductFits(amount, feeBps);
  }

  /** Valuing a balance fails only when the scale of its decimals does not fit 128 bits. */
  lemma ValueE9Value(balance: uint64, decimals: uint8, priceE9: uint64)
    ensures ValueE9(balance, decimals, priceE9)
         == if Pow10(decimals) > U128_MAX then Err(MathOverflow) else Ok(balance * priceE9 / Pow10(decimals))
  {
    ProductFits(balance, priceE9);
    FloorBounds(balance * priceE9, Pow10(decimals));
  }

  /** Turning a value into an amount fails without a price, and otherwise only when the scale, the
      scaled value or the amount does not fit its word. */
  lemma AmountFromValueCeilValue(value: uint128, decimals: uint8, priceE9: uint64)
    ensures AmountFromValueCeil(value, decimals, priceE9)
         == if priceE9 == 0 then Err(InvalidPrice)
           else if || Pow10(decimals) > U128_MAX
                   || value * Pow10(decimals) > U128_MAX
                   || CeilDiv(value * Pow10(decimals), priceE9) > U64_MAX then Err(MathOverflow)
           else Ok(CeilDiv(value * Pow10(decimals), priceE9))
  {
  }

  /** The streaming fee fails exactly when rate and time take the whole fund, or the quotient is too
      large for 64 bits. */
  lemma StreamingFeeFailsExactly(supply: uint64, feeBps: uint16, dt: int64)
    ensures StreamingFeeTokens(supply, feeBps, dt).Err? <==>
      && supply > 0 && feeBps > 0 && dt > 0
      && (|| feeBps * dt >= FEE_DENOMINATOR
          || supply * (feeBps * dt) >= (U64_MAX + 1) * (FEE_DENOMINATOR - feeBps * dt))
    ensures StreamingFeeTokens(supply, feeBps, dt).Err? ==>
      StreamingFeeTokens(supply, feeBps, dt).error == MathOverflow
  {
    if supply > 0 && feeBps > 0 && dt > 0 && feeBps * dt < FEE_DENOMINATOR {
      var num := feeBps * dt;
      ProductFits(supply, num);
      if supply * num >= (U64_MAX + 1) * (FEE_DENOMINATOR - num) {
        FloorAtLeast(U64_MAX + 1, supply * num, FEE_DENOMINATOR - num);
      } else {
        FloorBelow(U64_MAX + 1, supply * num, FEE_DENOMINATOR - num);
      }
    }
  }
}
