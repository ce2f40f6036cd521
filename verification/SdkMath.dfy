/** The arithmetic of the SDK: the same formulas on unbounded integers. None stands for a throw. */
module SdkMath {
  import opened Words
  import opened Division
  import opened Sums
  import FixedPoint

  const UNIT_SCALE: nat := 1_000_000_000
  const BPS: nat := 10_000
  const SECONDS_PER_YEAR: nat := 31_536_000

  function MulDivFloor(a: int, b: int, d: nat): Option<int> {
    if d == 0 then None else Some(TruncDiv(a * b, d))
  }

  function MulDivCeil(a: int, b: int, d: nat): Option<int> {
    if d == 0 then None
    else
      var n := a * b;
      Some(if n == 0 then 0 else TruncDiv(n - 1, d) + 1)
  }

  /** A scaled quotient whose divisor is known not to be zero. */
  function Scaled(r: Option<int>): int {
    if r.Some? then r.value else 0
  }

  function UnitsIn(units: int, amount: int): int {
    Scaled(MulDivCeil(units, amount, UNIT_SCALE))
  }

  function UnitsOut(units: int, amount: int): int {
    Scaled(MulDivFloor(units, amount, UNIT_SCALE))
  }

  function UnitsFromBalance(balance: int, supply: nat): int {
    if supply == 0 then 0 else Scaled(MulDivFloor(balance, UNIT_SCALE, supply))
  }

  function ValueE9(balance: int, decimals: nat, priceE9: int): int {
    Scaled(MulDivFloor(balance, priceE9, FixedPoint.Pow10(decimals)))
  }

  function AmountFromValueCeil(value: int, decimals: nat, priceE9: nat): Option<int> {
    if priceE9 == 0 then None else MulDivCeil(value, FixedPoint.Pow10(decimals), priceE9)
  }

  function StreamingFeeTokens(supply: int, feeBps: nat, dtSeconds: int): Option<int> {
    if supply == 0 || feeBps == 0 || dtSeconds <= 0 then Some(0)
    else
      var num := feeBps * dtSeconds;
      var den := BPS * SECONDS_PER_YEAR;
      if num >= den then None else MulDivFloor(supply, num, den - num)
  }

  function PremiumAt(startBps: int, endBps: int, startTs: int, endTs: int, now: int): Option<int> {
    if now < startTs || now > endTs then None
    else if endTs <= startTs then None
    else Some(startBps + TruncDiv((endBps - startBps) * (now - startTs), endTs - startTs))
  }

  datatype Quote = Quote(valueOutE9: int, valueInE9: int, buyAmount: int)

  /** A bid priced end to end: value taken, value owed, payment. */
  function BidCost(sellAmount: int, sellDecimals: nat, sellPriceE9: int, buyDecimals: nat, buyPriceE9: nat,
                   premiumBps: int): Option<Quote> {
    var valueOut := ValueE9(sellAmount, sellDecimals, sellPriceE9);
    var valueIn := Scaled(MulDivCeil(valueOut, BPS - premiumBps, BPS));
    var buyAmount := AmountFromValueCeil(valueIn, buyDecimals, buyPriceE9);
    if buyAmount.None? then None else Some(Quote(valueOut, valueIn, buyAmount.value))
  }

  // ---------------------------------------------------------------------------------------------
  // Agreement with the program
  // ---------------------------------------------------------------------------------------------

  /** The SDK's way of rounding up is the program's. */
  lemma CeilAgrees(a: nat, b: nat, d: nat)
    requires d > 0
    ensures MulDivCeil(a, b, d) == Some(CeilDiv(a * b, d))
  {
    var n := a * b;
    if n > 0 {
      FloorBounds(n - 1, d);
      var q := (n - 1) / d + 1;
      assert q * d == (n - 1) / d * d + d;
      CeilAtMost(q, n, d);
      CeilAbove(q - 1, n, d);
    } else {
      CeilAtMost(0, n, d);
    }
  }

  /** What the program makes of a value that has to fit 64 bits. */
  function Fitted(x: int): Result<uint64> {
    if 0 <= x <= U64_MAX then Ok(x) else Err(MathOverflow)
  }

  lemma UnitsInAgrees(units: uint64, amount: uint64)
    ensures FixedPoint.UnitsIn(units, amount) == Fitted(UnitsIn(units, amount))
  {
    CeilAgrees(units, amount, UNIT_SCALE);
    CeilWithin(units * amount, UNIT_SCALE);
    FixedPoint.UnitsInValue(units, amount);
  }

  lemma UnitsOutAgrees(units: uint64, amount: uint64)
    ensures FixedPoint.UnitsOut(units, amount) == Fitted(UnitsOut(units, amount))
  {
    FixedPoint.UnitsOutValue(units, amount);
    FloorBounds(units * amount, UNIT_SCALE);
  }

  lemma UnitsFromBalanceAgrees(balance: uint64, supply: uint64)
    ensures FixedPoint.UnitsFromBalance(balance, supply)
         == if supply == 0 then Err(SupplyTooSmall) else Fitted(UnitsFromBalance(balance, supply))
    ensures supply == 0 ==> UnitsFromBalance(balance, supply) == 0
  {
    if supply > 0 {
      FixedPoint.UnitsFromBalanceValue(balance, supply);
      FloorBounds(balance * UNIT_SCALE, supply);
    }
  }

  lemma StreamingFeeAgrees(supply: uint64, feeBps: uint16, dt: int64)
    ensures var sdk := StreamingFeeTokens(supply, feeBps, dt);
      FixedPoint.StreamingFeeTokens(supply, feeBps, dt) == if sdk.Some? then Fitted(sdk.value) else Err(MathOverflow)
  {
    if supply > 0 && feeBps > 0 && dt > 0 && feeBps * dt < FixedPoint.FEE_DENOMINATOR {
      var num := feeBps * dt;
      FixedPoint.ProductFits(supply, num);
      FloorBounds(supply * num, FixedPoint.FEE_DENOMINATOR - num);
    }
  }

  /** Both premiums are the same number whenever there is one, rising or falling. */
  lemma PremiumAgrees(startBps: int16, endBps: int16, startTs: int64, endTs: int64, now: int64)
    ensures var sdk := PremiumAt(startBps, endBps, startTs, endTs, now);
      var chain := FixedPoint.PremiumAt(startBps, endBps, startTs, endTs, now);
      && (sdk.Some? <==> chain.Ok?)
      && (sdk.Some? ==> sdk.value == chain.value)
  {
    if startTs <= now <= endTs && startTs < endTs {
      DecayStaysInside(endBps - startBps, now - startTs, endTs - startTs);
    }
  }

  /** A linear decay never goes past its end, in either direction. */
  lemma DecayStaysInside(delta: int, elapsed: nat, span: nat)
    requires elapsed <= span && span > 0
    ensures if delta >= 0 then 0 <= TruncDiv(delta * elapsed, span) <= delta
      else delta <= TruncDiv(delta * elapsed, span) <= 0
  {
    var size := if delta >= 0 then delta else -delta;
    MulMonotone(elapsed, span, size);
    FloorBounds(size * elapsed, span);
    FloorBelow(size + 1, size * elapsed, span);
    assert delta < 0 ==> delta * elapsed == -(size * elapsed);
  }

  // ---------------------------------------------------------------------------------------------
  // Weights
  // ---------------------------------------------------------------------------------------------

  function ValueOf(balance: nat, decimals: nat, priceE9: nat): (v: nat)
    ensures v == ValueE9(balance, decimals, priceE9)
  {
    FloorBounds(balance * priceE9, FixedPoint.Pow10(decimals));
    balance * priceE9 / FixedPoint.Pow10(decimals)
  }

  function Values(balances: seq<nat>, decimals: seq<nat>, pricesE9: seq<nat>): (vs: seq<nat>)
    requires |balances| == |decimals| == |pricesE9|
    ensures |vs| == |balances|
    ensures forall i :: 0 <= i < |vs| ==> vs[i] == ValueOf(balances[i], decimals[i], pricesE9[i])
  {
    seq(|balances|, i requires 0 <= i < |balances| => ValueOf(balances[i], decimals[i], pricesE9[i]))
  }

  /** Weights of `values` in a fund worth `navE9`, in basis points. */
  function Weights(values: seq<nat>, navE9: nat): (ws: seq<nat>)
    ensures |ws| == |values|
    ensures forall i :: 0 <= i < |ws| ==> ws[i] == if navE9 == 0 then 0 else values[i] * BPS / navE9
  {
    seq(|values|, i requires 0 <= i < |values| =>
      if navE9 == 0 then 0 else FloorBounds(values[i] * BPS, navE9); values[i] * BPS / navE9)
  }

  /** NAV and portfolio weights at given prices. */
  function WeightsBps(balances: seq<nat>, decimals: seq<nat>, pricesE9: seq<nat>): (nat, seq<nat>)
    requires |balances| == |decimals| == |pricesE9|
  {
    var values := Values(balances, decimals, pricesE9);
    (Sum(values), Weights(values, Sum(values)))
  }

  lemma FlooredWeight(values: seq<nat>, navE9: nat, i: nat)
    requires i < |values|
    ensures var weight := Weights(values, navE9)[i];
      if navE9 == 0 then weight == 0 else weight * navE9 <= values[i] * BPS < (weight + 1) * navE9
  {
    if navE9 > 0 {
      FloorBounds(values[i] * BPS, navE9);
    }
  }

  /** NAV is the sum of the values, and each weight is its value's share of it in basis points, cut by less
      than one; in a fund worth nothing every weight is zero. */
  lemma WeightIsShare(balances: seq<nat>, decimals: seq<nat>, pricesE9: seq<nat>, i: nat)
    requires |balances| == |decimals| == |pricesE9| && i < |balances|
    ensures var values := Values(balances, decimals, pricesE9);
      var nav := WeightsBps(balances, decimals, pricesE9).0;
      var weights := WeightsBps(balances, decimals, pricesE9).1;
      && nav == Sum(values) && |weights| == |values|
      && if nav == 0 then weights[i] == 0 else weights[i] * nav <= values[i] * BPS < (weights[i] + 1) * nav
  {
    var values: seq<nat> := Values(balances, decimals, pricesE9);
    FlooredWeight(values, Sum(values), i);
  }

  /** Floored weights of parts of a whole lose less than one basis point each. */
  lemma {:induction false} WeightsLoseLittle(values: seq<nat>, navE9: nat)
    requires navE9 > 0
    ensures Sum(Weights(values, navE9)) * navE9 <= Sum(values) * BPS
    ensures values != [] ==> Sum(values) * BPS < (Sum(Weights(values, navE9)) + |values|) * navE9
  {
    if values == [] {
    } else {
      var ws := Weights(values, navE9);
      assert ws[1..] == Weights(values[1..], navE9);
      WeightsLoseLittle(values[1..], navE9);
      FloorBounds(values[0] * BPS, navE9);
      WeightStep(ws[0], Sum(ws[1..]), values[0], Sum(values[1..]), |values[1..]|, navE9);
    }
  }

  lemma WeightStep(w: nat, ws: nat, v: nat, vs: nat, n: nat, nav: nat)
    requires w * nav <= v * BPS < w * nav + nav
    requires ws * nav <= vs * BPS <= (ws + n) * nav
    ensures (w + ws) * nav <= (v + vs) * BPS < (w + ws + (n + 1)) * nav
  {
    assert (w + ws) * nav == w * nav + ws * nav;
    assert (w + ws + (n + 1)) * nav == w * nav + nav + (ws + n) * nav;
  }

  /** The weights of a fund worth something add up to at most 10000 basis points, and to more than
      10000 less one for each component. */
  lemma WeightsSum(balances: seq<nat>, decimals: seq<nat>, pricesE9: seq<nat>)
    requires |balances| == |decimals| == |pricesE9|
    requires WeightsBps(balances, decimals, pricesE9).0 > 0
    ensures BPS - |balances| < Sum(WeightsBps(balances, decimals, pricesE9).1) <= BPS
  {
    var values := Values(balances, decimals, pricesE9);
    var nav := Sum(values);
    WeightsLoseLittle(values, nav);
    var total := Sum(Weights(values, nav));
    CancelMul(total, BPS, nav);
    CancelStrict(BPS, total + |values|, nav);
  }

  // ---------------------------------------------------------------------------------------------
  // Target sizing
  // ---------------------------------------------------------------------------------------------

  /** A weight turned into a target: value, then amount, then claim of a whole index token. */
  function UnitsForWeight(weightBps: nat, priceE9: nat, decimals: nat, navE9: nat, supply: nat): nat
    requires priceE9 > 0 && supply > 0
  {
    var targetValue := navE9 * weightBps / BPS;
    FloorBounds(navE9 * weightBps, BPS);
    FloorBounds(targetValue * FixedPoint.Pow10(decimals), priceE9);
    var targetAmount := targetValue * FixedPoint.Pow10(decimals) / priceE9;
    FloorBounds(targetAmount * UNIT_SCALE, supply);
    targetAmount * UNIT_SCALE / supply
  }

  function UnitsForWeights(weightsBps: seq<nat>, pricesE9: seq<nat>, decimals: seq<nat>, navE9: nat,
                           supply: nat): Option<seq<nat>>
    requires |weightsBps| == |pricesE9| == |decimals|
  {
    if supply == 0 || 0 in pricesE9 then None
    else Some(seq(|weightsBps|, i requires 0 <= i < |weightsBps| =>
      UnitsForWeight(weightsBps[i], pricesE9[i], decimals[i], navE9, supply)))
  }

  /** Sizing throws exactly for a fund without tokens or a component without a price. Otherwise each target
      is the largest claim per token on the largest amount that the largest whole nanodollar value within
      the weight can buy. */
  lemma SizedUnitsAreLargest(weightsBps: seq<nat>, pricesE9: seq<nat>, decimals: seq<nat>, navE9: nat, supply: nat,
                             i: nat) returns (value: nat, amount: nat)
    requires |weightsBps| == |pricesE9| == |decimals| && i < |weightsBps|
    ensures var units := UnitsForWeights(weightsBps, pricesE9, decimals, navE9, supply);
      && (units.None? <==> supply == 0 || exists j :: 0 <= j < |pricesE9| && pricesE9[j] == 0)
      && (units.Some? ==>
            && |units.value| == |weightsBps|
            && value * BPS <= navE9 * weightsBps[i] < (value + 1) * BPS
            && amount * pricesE9[i] <= value * FixedPoint.Pow10(decimals[i]) < (amount + 1) * pricesE9[i]
            && units.value[i] * supply <= amount * UNIT_SCALE < (units.value[i] + 1) * supply)
  {
    FloorBounds(navE9 * weightsBps[i], BPS);
    value, amount := navE9 * weightsBps[i] / BPS, 0;
    if supply > 0 && 0 !in pricesE9 {
      assert pricesE9[i] in pricesE9;
      FloorBounds(value * FixedPoint.Pow10(decimals[i]), pricesE9[i]);
      amount := value * FixedPoint.Pow10(decimals[i]) / pricesE9[i];
      FloorBounds(amount * UNIT_SCALE, supply);
    }
  }

  /** Value of `units` per index token, taken back through the supply. */
  function TargetValue(units: nat, priceE9: nat, decimals: nat, supply: nat): nat {
    FloorBounds(units * supply, UNIT_SCALE);
    FloorBounds(units * supply / UNIT_SCALE * priceE9, FixedPoint.Pow10(decimals));
    units * supply / UNIT_SCALE * priceE9 / FixedPoint.Pow10(decimals)
  }

  /** A target is worth at most its share of NAV, and falls short of it by at most the value of the
      base units that the three floors can lose. */
  lemma TargetNearShare(weightBps: nat, priceE9: nat, decimals: nat, navE9: nat, supply: nat)
    requires priceE9 > 0 && supply > 0
    ensures var value :=
      TargetValue(UnitsForWeight(weightBps, priceE9, decimals, navE9, supply), priceE9, decimals, supply);
      && value * BPS <= navE9 * weightBps
      && navE9 * weightBps < (value + (supply / UNIT_SCALE + 2) * priceE9 / FixedPoint.Pow10(decimals) + 2) * BPS
  {
    var scale, share := FixedPoint.Pow10(decimals), navE9 * weightBps / BPS;
    var amount := share * scale / priceE9;
    var units := amount * UNIT_SCALE / supply;
    var back := units * supply / UNIT_SCALE;
    var value := back * priceE9 / scale;
    var lost := supply / UNIT_SCALE + 2;
    FloorBounds(navE9 * weightBps, BPS);
    AmountComesBack(amount, supply);
    ValueComesBack(share, scale, priceE9, amount, back, lost);
  }

  /** An amount cut to units per token comes back no larger, and short by at most supply/1e9 + 1. */
  lemma AmountComesBack(amount: nat, supply: nat)
    requires supply > 0
    ensures var back := amount * UNIT_SCALE / supply * supply / UNIT_SCALE;
      0 <= back <= amount <= back + supply / UNIT_SCALE + 1
  {
    var units := amount * UNIT_SCALE / supply;
    FloorBounds(amount * UNIT_SCALE, supply);
    FloorBounds(units * supply, UNIT_SCALE);
    FloorBounds(supply, UNIT_SCALE);
    var back := units * supply / UNIT_SCALE;
    CancelMul(back, amount, UNIT_SCALE);
    assert amount * UNIT_SCALE < back * UNIT_SCALE + UNIT_SCALE + (supply / UNIT_SCALE + 1) * UNIT_SCALE;
    CancelMul(amount, back + supply / UNIT_SCALE + 1, UNIT_SCALE);
  }

  lemma ValueComesBack(share: nat, scale: nat, price: nat, amount: nat, back: nat, lost: nat)
    requires scale > 0 && price > 0 && lost > 0
    requires amount == share * scale / price
    requires back <= amount < back + lost
    ensures back * price / scale <= share <= back * price / scale + lost * price / scale + 1
  {
    FloorBounds(share * scale, price);
    FloorBounds(back * price, scale);
    FloorBounds(lost * price, scale);
    ValueBackCore(share, scale, price, amount, back, lost, back * price / scale, lost * price / scale);
  }

  lemma ValueBackCore(share: nat, scale: nat, price: nat, amount: nat, back: nat, lost: nat, v: nat, l: nat)
    requires scale > 0 && back <= amount < back + lost
    requires amount * price <= share * scale < amount * price + price
    requires v * scale <= back * price < v * scale + scale
    requires lost * price < l * scale + scale
    ensures v <= share <= v + l + 1
  {
    MulMonotone(back, amount, price);
    CancelMul(v, share, scale);
    MulMonotone(amount + 1, back + lost, price);
    assert (back + lost) * price == back * price + lost * price;
    assert (amount + 1) * price == amount * price + price;
    assert (v + l + 2) * scale == v * scale + scale + (l * scale + scale);
    CancelStrict(share, v + l + 2, scale);
  }

  /** Values of the targets a sizing returns, taken back through the supply. */
  function TargetValues(units: seq<nat>, pricesE9: seq<nat>, decimals: seq<nat>, supply: nat): (vs: seq<nat>)
    requires |units| == |pricesE9| == |decimals|
    ensures |vs| == |units|
    ensures forall i :: 0 <= i < |vs| ==> vs[i] == TargetValue(units[i], pricesE9[i], decimals[i], supply)
  {
    seq(|units|, i requires 0 <= i < |units| => TargetValue(units[i], pricesE9[i], decimals[i], supply))
  }

  lemma {:induction false} TargetsWithinWeights(weightsBps: seq<nat>, pricesE9: seq<nat>, decimals: seq<nat>,
                                                navE9: nat, supply: nat, values: seq<nat>)
    requires |weightsBps| == |pricesE9| == |decimals| == |values| && supply > 0
    requires forall i :: 0 <= i < |pricesE9| ==> pricesE9[i] > 0
    requires forall i :: 0 <= i < |values| ==>
      values[i]
        == TargetValue(UnitsForWeight(weightsBps[i], pricesE9[i], decimals[i], navE9, supply), pricesE9[i],
                       decimals[i], supply)
    ensures Sum(values) * BPS <= navE9 * Sum(weightsBps)
  {
    if values != [] {
      TargetsWithinWeights(weightsBps[1..], pricesE9[1..], decimals[1..], navE9, supply, values[1..]);
      TargetNearShare(weightsBps[0], pricesE9[0], decimals[0], navE9, supply);
      assert navE9 * (weightsBps[0] + Sum(weightsBps[1..])) == navE9 * weightsBps[0] + navE9 * Sum(weightsBps[1..]);
    } else {
      assert navE9 * 0 == 0;
    }
  }

  /** Targets sized for weights that add up to the whole never spend more than NAV. */
  lemma SizingNeverOverspends(weightsBps: seq<nat>, pricesE9: seq<nat>, decimals: seq<nat>, navE9: nat, supply: nat)
    requires |weightsBps| == |pricesE9| == |decimals| && Sum(weightsBps) <= BPS
    requires UnitsForWeights(weightsBps, pricesE9, decimals, navE9, supply).Some?
    ensures var units := UnitsForWeights(weightsBps, pricesE9, decimals, navE9, supply).value;
      Sum(TargetValues(units, pricesE9, decimals, supply)) <= navE9
  {
    var units := UnitsForWeights(weightsBps, pricesE9, decimals, navE9, supply).value;
    var values := TargetValues(units, pricesE9, decimals, supply);
    TargetsWithinWeights(weightsBps, pricesE9, decimals, navE9, supply, values);
    MulMonotone(Sum(weightsBps), BPS, navE9);
    CancelMul(Sum(values), navE9, BPS);
  }
}
