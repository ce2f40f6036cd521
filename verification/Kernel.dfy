/** What the fixed-point arithmetic guarantees, function by function. */
module Kernel {
  import opened Words
  import opened Division
  import opened FixedPoint

  // ---------------------------------------------------------------------------------------------
  // Entering and leaving against the exact share
  // ---------------------------------------------------------------------------------------------

  /** An issue charges less than one base unit above the exact share of the vault, and less than
      gross/1e9 below it. */
  lemma IssueChargeIsFair(balance: uint64, supply: uint64, units: uint64, gross: uint64, cost: uint64)
    requires supply > 0 && gross > 0
    requires UnitsFromBalance(balance, supply) == Ok(units) && UnitsIn(units, gross) == Ok(cost)
    ensures cost * supply < balance * gross + supply
    ensures balance * gross * UNIT_SCALE < (cost * UNIT_SCALE + gross) * supply
  {
    UnitsFromBalanceValue(balance, supply);
    UnitsInValue(units, gross);
    FloorBounds(balance * UNIT_SCALE, supply);
    ChargeBounds(balance, supply, units, gross, cost, UNIT_SCALE);
  }

  lemma ChargeBounds(b: nat, s: nat, u: nat, g: nat, c: nat, S: nat)
    requires s > 0 && g > 0 && S > 0
    requires u * s <= b * S < u * s + s
    requires u * g <= c * S < u * g + S
    ensures c * s < b * g + s
    ensures b * g * S < (c * S + g) * s
  {
    CostBelow(b, s, u, g, c, S);
    CostAbove(b, s, u, g, c, S);
  }

  lemma CostBelow(b: nat, s: nat, u: nat, g: nat, c: nat, S: nat)
    requires s > 0 && S > 0 && u * s <= b * S && c * S < u * g + S
    ensures c * s < b * g + s
  {
    Scaled(u, s, b, S, g);
    MulStrict(c * S, u * g + S, s);
    Swap(c, S, s);
    Swap(u, g, s);
    Distribute(u * g, S, s);
    Distribute(b * g, s, S);
    CancelStrict(c * s, b * g + s, S);
  }

  lemma CostAbove(b: nat, s: nat, u: nat, g: nat, c: nat, S: nat)
    requires g > 0 && b * S < u * s + s && u * g <= c * S
    ensures b * g * S < (c * S + g) * s
  {
    MulStrict(b * S, u * s + s, g);
    Swap(b, S, g);
    Distribute(u * s, s, g);
    Swap(u, s, g);
    MulMonotone(u * g + g, c * S + g, s);
    Distribute(u * g, g, s);
  }

  lemma Swap(x: int, y: int, z: int)
    ensures x * y * z == x * z * y
  {
  }

  lemma Distribute(x: int, y: int, z: int)
    ensures (x + y) * z == x * z + y * z
    ensures (x + y) * z == x * z + z * y
  {
  }

  /** What units claim of a vault, in proportion to `g`. */
  lemma Scaled(u: nat, s: nat, b: nat, S: nat, g: nat)
    requires u * s <= b * S
    ensures u * s * g <= b * g * S
  {
    MulMonotone(u * s, b * S, g);
    Swap(b, S, g);
  }

  /** A redemption pays at most the exact share of the vault, and falls short of it by less than
      net/1e9 + 1 base units. */
  lemma RedeemPayoutIsFair(balance: uint64, supply: uint64, units: uint64, net: uint64, payout: uint64)
    requires supply > 0
    requires UnitsFromBalance(balance, supply) == Ok(units) && UnitsOut(units, net) == Ok(payout)
    ensures payout * supply <= balance * net
    ensures balance * net * UNIT_SCALE < (payout * UNIT_SCALE + net + UNIT_SCALE) * supply
  {
    UnitsFromBalanceValue(balance, supply);
    UnitsOutValue(units, net);
    FloorBounds(balance * UNIT_SCALE, supply);
    FloorBounds(units * net, UNIT_SCALE);
    PayoutBounds(balance, supply, units, net, payout, UNIT_SCALE);
  }

  lemma PayoutBounds(b: nat, s: nat, u: nat, g: nat, p: nat, S: nat)
    requires s > 0 && S > 0
    requires u * s <= b * S < u * s + s
    requires p * S <= u * g < p * S + S
    ensures p * s <= b * g
    ensures b * g * S < (p * S + g + S) * s
  {
    ShareAbove(b, s, u, g, p, S);
    ShareBelow(b, s, u, g, p * S + S, S);
  }

  lemma ShareAbove(b: nat, s: nat, u: nat, g: nat, p: nat, S: nat)
    requires S > 0 && u * s <= b * S && p * S <= u * g
    ensures p * s <= b * g
  {
    Scaled(u, s, b, S, g);
    MulMonotone(p * S, u * g, s);
    Swap(p, S, s);
    Swap(u, g, s);
    CancelMul(p * s, b * g, S);
  }

  lemma ShareBelow(b: nat, s: nat, u: nat, g: nat, top: nat, S: nat)
    requires s > 0 && b * S < u * s + s && u * g < top
    ensures b * g * S < (top + g) * s
  {
    MulMonotone(b * S, u * s + s, g);
    Swap(b, S, g);
    Distribute(u * s, s, g);
    Swap(u, s, g);
    Distribute(u * g, g, s);
    MulStrict(u * g + g, top + g, s);
  }

  // ---------------------------------------------------------------------------------------------
  // The streaming fee
  // ---------------------------------------------------------------------------------------------

  /** The recipient's part of the grown supply is the rate times the time, to one base unit. */
  lemma StreamingFeeIsExact(supply: uint64, feeBps: uint16, dt: int64, minted: uint64)
    requires supply > 0 && feeBps > 0 && dt > 0
    requires StreamingFeeTokens(supply, feeBps, dt) == Ok(minted)
    ensures minted * FEE_DENOMINATOR <= (supply + minted) * (feeBps * dt)
    ensures (supply + minted + 1) * (feeBps * dt) < (minted + 1) * FEE_DENOMINATOR
  {
    var num, den := feeBps * dt, FEE_DENOMINATOR;
    FloorBounds(supply * num, den - num);
    assert minted * (den - num) == minted * den - minted * num;
    assert (supply + minted) * num == supply * num + minted * num;
    assert (supply + minted + 1) * num == supply * num + minted * num + num;
    assert (minted + 1) * den == minted * den + den;
  }

  /** More supply, a higher rate or more time never owes less. */
  lemma StreamingFeeIsMonotone(supply: uint64, feeBps: uint16, dt: int64, supply': uint64, feeBps': uint16, dt': int64)
    requires supply <= supply' && feeBps <= feeBps' && dt <= dt'
    requires StreamingFeeTokens(supply', feeBps', dt').Ok?
    ensures StreamingFeeTokens(supply, feeBps, dt).Ok?
    ensures StreamingFeeTokens(supply, feeBps, dt).value <= StreamingFeeTokens(supply', feeBps', dt').value
  {
    if supply > 0 && feeBps > 0 && dt > 0 {
      var num, num', den := feeBps * dt, feeBps' * dt', FEE_DENOMINATOR;
      assert 0 < num <= num' by {
        MulMonotone(feeBps, feeBps', dt);
        MulMonotone(dt, dt', feeBps');
      }
      assert supply * num <= supply' * num' by {
        MulMonotone(supply, supply', num);
        MulMonotone(num, num', supply');
      }
      FloorMonotone(supply * num, supply' * num', den - num);
      FloorAntitone(supply' * num', den - num', den - num);
    }
  }

  // ---------------------------------------------------------------------------------------------
  // The Dutch price
  // ---------------------------------------------------------------------------------------------

  /** Inside the window the premium opens at the start, closes at the end and stays between them;
      outside it, or in a window that never opens, there is none. */
  lemma PremiumStaysInBand(startBps: int16, endBps: int16, startTs: int64, endTs: int64, now: int64)
    requires startBps <= endBps
    ensures PremiumAt(startBps, endBps, startTs, endTs, now).Ok? <==> startTs <= now <= endTs && startTs < endTs
    ensures var p := PremiumAt(startBps, endBps, startTs, endTs, now);
      p.Ok? ==>
        && startBps <= p.value <= endBps
        && (now == startTs ==> p.value == startBps)
        && (now == endTs ==> p.value == endBps)
  {
    if startTs <= now <= endTs && startTs < endTs {
      var delta, elapsed, span := endBps - startBps, now - startTs, endTs - startTs;
      FloorBounds(delta * elapsed, span);
      assert delta * elapsed <= delta * span by {
        MulMonotone(elapsed, span, delta);
      }
      FloorBelow(delta + 1, delta * elapsed, span);
      if now == endTs {
        FloorAtLeast(delta, delta * elapsed, span);
      }
    }
  }

  /** The premium never falls as the auction goes on. */
  lemma PremiumNeverFalls(startBps: int16, endBps: int16, startTs: int64, endTs: int64, now: int64, later: int64)
    requires startBps <= endBps && now <= later
    requires PremiumAt(startBps, endBps, startTs, endTs, now).Ok?
    requires PremiumAt(startBps, endBps, startTs, endTs, later).Ok?
    ensures PremiumAt(startBps, endBps, startTs, endTs, now).value
      <= PremiumAt(startBps, endBps, startTs, endTs, later).value
  {
    var delta, span := endBps - startBps, endTs - startTs;
    MulMonotone(now - startTs, later - startTs, delta);
    FloorMonotone(delta * (now - startTs), delta * (later - startTs), span);
  }

  /** In between it keeps to the straight line from start to end, cut toward the start by less than a
      basis point, whether it rises or falls. */
  lemma PremiumIsLinear(startBps: int16, endBps: int16, startTs: int64, endTs: int64, now: int64)
    requires PremiumAt(startBps, endBps, startTs, endTs, now).Ok?
    ensures var gone := PremiumAt(startBps, endBps, startTs, endTs, now).value - startBps;
      var line, span := (endBps - startBps) * (now - startTs), endTs - startTs;
      if line >= 0 then gone * span <= line < gone * span + span
      else gone * span - span < line <= gone * span
  {
    var line, span := (endBps - startBps) * (now - startTs), endTs - startTs;
    if line >= 0 {
      FloorBounds(line, span);
    } else {
      FloorBounds(-line, span);
      assert -((-line) / span) * span == -((-line) / span * span);
    }
  }
}
