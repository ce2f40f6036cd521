/** One slot of the table, entered and left: the arithmetic behind what holders are promised. */
module Shares {
  import opened Division
  import opened FixedPoint
  import opened Kernel

  /** The claim of a whole token on a vault; before the first entry, the stored number. */
  function DerivedUnits(units: nat, balance: nat, supply: nat): nat {
    if supply == 0 then units else balance * UNIT_SCALE / supply
  }

  /** What a slot costs an issue that mints `gross`. */
  function SlotCost(units: nat, balance: nat, supply: nat, gross: nat): nat {
    CeilWithin(DerivedUnits(units, balance, supply) * gross, UNIT_SCALE);
    CeilDiv(DerivedUnits(units, balance, supply) * gross, UNIT_SCALE)
  }

  /** What a slot pays a redemption that retires `net`. */
  function SlotProceeds(units: nat, balance: nat, supply: nat, net: nat): nat {
    DerivedUnits(units, balance, supply) * net / UNIT_SCALE
  }

  lemma DerivedBounds(units: nat, balance: nat, supply: nat)
    requires supply > 0
    ensures DerivedUnits(units, balance, supply) * supply <= balance * UNIT_SCALE
    ensures balance * UNIT_SCALE < DerivedUnits(units, balance, supply) * supply + supply
  {
    FloorBounds(balance * UNIT_SCALE, supply);
  }

  lemma ProceedsBounds(units: nat, balance: nat, supply: nat, net: nat)
    ensures var u, p := DerivedUnits(units, balance, supply), SlotProceeds(units, balance, supply, net);
      p * UNIT_SCALE <= u * net < p * UNIT_SCALE + UNIT_SCALE
  {
    FloorBounds(DerivedUnits(units, balance, supply) * net, UNIT_SCALE);
  }

  // ---------------------------------------------------------------------------------------------
  // Round trips
  // ---------------------------------------------------------------------------------------------

  /** The key step: if the units rise by k >= 1 when an issue lands, then k * gross is below the
      rounding remainder of the delivery, so redeeming at the raised units still pays no more. */
  lemma RoundTripCore(b: nat, s: nat, u: nat, g: nat, c: nat, u': nat, n: nat, p: nat, S: nat)
    requires S > 0 && n <= g
    requires if s > 0 then u * s <= b * S < u * s + s else b == 0
    requires u * g <= c * S < u * g + S
    requires u' * (s + g) <= (b + c) * S
    requires p * S <= u' * n
    ensures p <= c
  {
    assert u' * g <= c * S by {
      if u' <= u {
        MulMonotone(u', u, g);
      } else {
        MulMonotone(u + 1, u', s);
        assert (u + 1) * s == u * s + s;
        assert u' * (s + g) == u' * s + u' * g;
        assert (b + c) * S == b * S + c * S;
      }
    }
    MulMonotone(n, g, u');
    CancelMul(p, c, S);
  }

  /** Entering a slot and leaving it at once with no more than was minted pays at most the cost. */
  lemma SlotRoundTrip(units: nat, units': nat, balance: nat, supply: nat, gross: nat, net: nat)
    requires 0 < gross && net <= gross
    requires supply > 0 || balance == 0
    ensures var cost := SlotCost(units, balance, supply, gross);
      SlotProceeds(units', balance + cost, supply + gross, net) <= cost
  {
    var u, c := DerivedUnits(units, balance, supply), SlotCost(units, balance, supply, gross);
    var u', p :=
      DerivedUnits(units', balance + c, supply + gross), SlotProceeds(units', balance + c, supply + gross, net);
    if supply > 0 {
      DerivedBounds(units, balance, supply);
    }
    DerivedBounds(units', balance + c, supply + gross);
    ProceedsBounds(units', balance + c, supply + gross, net);
    RoundTripCore(balance, supply, u, gross, c, u', net, p, UNIT_SCALE);
  }

  /** Entering an unowned slot with one whole token, free of fees, takes over what its vault held. */
  lemma WholeTokenRoundTrip(units: nat, units': nat, balance: nat)
    ensures var cost := SlotCost(units, balance, 0, UNIT_SCALE);
      SlotProceeds(units', balance + cost, UNIT_SCALE, UNIT_SCALE) == balance + cost
  {
    var cost := SlotCost(units, balance, 0, UNIT_SCALE);
    assert (balance + cost) * UNIT_SCALE / UNIT_SCALE == balance + cost;
  }

  /** A whole number of tokens costs that many times the units, with nothing to round. */
  lemma WholeTokensCost(units: nat, balance: nat, supply: nat, n: nat)
    ensures SlotCost(units, balance, supply, n * UNIT_SCALE) == n * DerivedUnits(units, balance, supply)
    ensures SlotProceeds(units, balance, supply, n * UNIT_SCALE) == n * DerivedUnits(units, balance, supply)
  {
    var u := DerivedUnits(units, balance, supply);
    assert u * (n * UNIT_SCALE) == n * u * UNIT_SCALE;
    ProceedsBounds(units, balance, supply, n * UNIT_SCALE);
    CeilAtMost(n * u, u * (n * UNIT_SCALE), UNIT_SCALE);
    CancelMul(n * u, SlotCost(units, balance, supply, n * UNIT_SCALE), UNIT_SCALE);
    FloorAtLeast(n * u, u * (n * UNIT_SCALE), UNIT_SCALE);
    CancelMul(SlotProceeds(units, balance, supply, n * UNIT_SCALE), n * u, UNIT_SCALE);
  }

  /** And such a delivery leaves the units exactly where they were. */
  lemma WholeTokensKeepUnits(units: nat, units': nat, balance: nat, supply: nat, n: nat)
    requires 0 < n && (supply > 0 || balance == 0)
    ensures var u := DerivedUnits(units, balance, supply);
      DerivedUnits(units', balance + n * u, supply + n * UNIT_SCALE) == u
  {
    var u, gross := DerivedUnits(units, balance, supply), n * UNIT_SCALE;
    if supply > 0 {
      DerivedBounds(units, balance, supply);
    }
    assert n * u * UNIT_SCALE == u * gross;
    assert (balance + n * u) * UNIT_SCALE == balance * UNIT_SCALE + u * gross;
    assert u * (supply + gross) == u * supply + u * gross;
    assert (u + 1) * (supply + gross) == u * supply + u * gross + supply + gross;
    FloorAtLeast(u, (balance + n * u) * UNIT_SCALE, supply + gross);
    FloorBelow(u + 1, (balance + n * u) * UNIT_SCALE, supply + gross);
  }

  /** Entering with `gross` and leaving at once with `net` pays at most what it cost. */
  ghost predicate SafeTrip(units: nat, balance: nat, supply: nat, gross: nat, net: nat) {
    var cost := SlotCost(units, balance, supply, gross);
    SlotProceeds(units, balance + cost, supply + gross, net) <= cost
  }

  /** The round trip is safe for all amounts exactly when there is a supply or the vault is empty:
      otherwise the first issue takes over what the vault already held. */
  lemma RoundTripSafeExactly(units: nat, balance: nat, supply: nat)
    ensures (forall gross: nat, net: nat :: 0 < gross && net <= gross ==> SafeTrip(units, balance, supply, gross, net))
       <==> supply > 0 || balance == 0
  {
    if supply > 0 || balance == 0 {
      forall gross: nat, net: nat | 0 < gross && net <= gross
        ensures SafeTrip(units, balance, supply, gross, net)
      {
        SlotRoundTrip(units, units, balance, supply, gross, net);
      }
    } else {
      WholeTokenRoundTrip(units, units, balance);
      assert !SafeTrip(units, balance, supply, UNIT_SCALE, UNIT_SCALE);
    }
  }

  // ---------------------------------------------------------------------------------------------
  // Units along the way
  // ---------------------------------------------------------------------------------------------

  /** A delivery rounded up never lowers the units. */
  lemma EntryRaisesUnits(units: nat, units': nat, balance: nat, supply: nat, gross: nat)
    requires gross > 0
    ensures var cost := SlotCost(units, balance, supply, gross);
      DerivedUnits(units, balance, supply) <= DerivedUnits(units', balance + cost, supply + gross)
  {
    var u, c := DerivedUnits(units, balance, supply), SlotCost(units, balance, supply, gross);
    if supply > 0 {
      DerivedBounds(units, balance, supply);
    }
    assert u * (supply + gross) == u * supply + u * gross;
    FloorAtLeast(u, (balance + c) * UNIT_SCALE, supply + gross);
  }

  /** A payout is covered by its vault, and rounded down it never lowers the units that remain. */
  lemma ExitKeepsUnits(units: nat, units': nat, balance: nat, supply: nat, net: nat)
    requires 0 < supply && net <= supply
    ensures SlotProceeds(units, balance, supply, net) <= balance
    ensures net < supply ==>
      DerivedUnits(units, balance, supply)
        <= DerivedUnits(units', balance - SlotProceeds(units, balance, supply, net), supply - net)
  {
    var u, p := DerivedUnits(units, balance, supply), SlotProceeds(units, balance, supply, net);
    DerivedBounds(units, balance, supply);
    ProceedsBounds(units, balance, supply, net);
    MulMonotone(net, supply, u);
    CancelMul(p, balance, UNIT_SCALE);
    if net < supply {
      assert u * (supply - net) == u * supply - u * net;
      FloorAtLeast(u, (balance - p) * UNIT_SCALE, supply - net);
    }
  }

  /** Entering with `gross` leaves the exact ratio of tokens to supply no lower than it was. */
  ghost predicate KeepsExactBacking(units: nat, balance: nat, supply: nat, gross: nat) {
    balance * (supply + gross) <= (balance + SlotCost(units, balance, supply, gross)) * supply
  }

  /** The derived units never fall, but the exact ratio can: it is safe from every entry if and only
      if the units divide out without a remainder. */
  lemma ExactBackingKeptExactly(units: nat, balance: nat, supply: nat)
    requires supply > 0
    ensures (forall gross: nat :: gross > 0 ==> KeepsExactBacking(units, balance, supply, gross))
       <==> balance * UNIT_SCALE % supply == 0
  {
    var u := DerivedUnits(units, balance, supply);
    FloorBounds(balance * UNIT_SCALE, supply);
    if balance * UNIT_SCALE % supply == 0 {
      forall gross: nat | gross > 0 ensures KeepsExactBacking(units, balance, supply, gross) {
        ExactUnitsKeepBacking(balance, supply, u, gross, SlotCost(units, balance, supply, gross));
      }
    } else {
      var c := SlotCost(units, balance, supply, UNIT_SCALE);
      assert c == u;
      assert (balance + u) * supply == balance * supply + u * supply;
      assert balance * (supply + UNIT_SCALE) == balance * supply + balance * UNIT_SCALE;
      assert !KeepsExactBacking(units, balance, supply, UNIT_SCALE);
    }
  }

  lemma ExactUnitsKeepBacking(b: nat, s: nat, u: nat, g: nat, c: nat)
    requires u * s == b * UNIT_SCALE && u * g <= c * UNIT_SCALE
    ensures b * (s + g) <= (b + c) * s
  {
    MulMonotone(u * g, c * UNIT_SCALE, s);
    assert (b * g) * UNIT_SCALE == (b * UNIT_SCALE) * g == (u * s) * g == (u * g) * s;
    assert (c * s) * UNIT_SCALE == (c * UNIT_SCALE) * s;
    CancelMul(b * g, c * s, UNIT_SCALE);
    assert b * (s + g) == b * s + b * g;
    assert (b + c) * s == b * s + c * s;
  }

  /** No part of the supply is paid more than the same part of the vault, so an exit never lowers the
      exact ratio. */
  lemma ExitKeepsExactBacking(units: nat, balance: nat, supply: nat, net: nat)
    requires supply > 0
    ensures SlotProceeds(units, balance, supply, net) * supply <= balance * net
  {
    DerivedBounds(units, balance, supply);
    ProceedsBounds(units, balance, supply, net);
    ShareAbove(balance, supply, DerivedUnits(units, balance, supply), net, SlotProceeds(units, balance, supply, net),
               UNIT_SCALE);
  }

  /** The units an exit leaves behind exceed those before it by at most what one token and the whole
      supply can round away, spread over the supply that remains. */
  lemma UnitsAfterExitBound(units: nat, units': nat, balance: nat, supply: nat, net: nat)
    requires net < supply
    requires SlotProceeds(units, balance, supply, net) <= balance
    ensures DerivedUnits(units', balance - SlotProceeds(units, balance, supply, net), supply - net)
         <= DerivedUnits(units, balance, supply) + (supply + UNIT_SCALE) / (supply - net)
  {
    var u, p := DerivedUnits(units, balance, supply), SlotProceeds(units, balance, supply, net);
    DerivedBounds(units, balance, supply);
    ProceedsBounds(units, balance, supply, net);
    ExitBoundCore(balance, supply, u, net, p);
  }

  lemma ExitBoundCore(b: nat, s: nat, u: nat, n: nat, p: nat)
    requires n < s && p <= b
    requires b * UNIT_SCALE < u * s + s && u * n < p * UNIT_SCALE + UNIT_SCALE
    ensures (b - p) * UNIT_SCALE / (s - n) <= u + (s + UNIT_SCALE) / (s - n)
  {
    var rest, slack := s - n, (s + UNIT_SCALE) / (s - n);
    FloorBounds(s + UNIT_SCALE, rest);
    assert u * rest == u * s - u * n;
    assert (u + slack + 1) * rest == u * rest + slack * rest + rest;
    FloorBelow(u + slack + 1, (b - p) * UNIT_SCALE, rest);
  }

  /** More units and more tokens never pay less. */
  lemma ProceedsMonotone(units: nat, balance: nat, supply: nat, units': nat, balance': nat, supply': nat, net: nat)
    requires DerivedUnits(units, balance, supply) <= DerivedUnits(units', balance', supply')
    ensures SlotProceeds(units, balance, supply, net) <= SlotProceeds(units', balance', supply', net)
  {
    var u, u' := DerivedUnits(units, balance, supply), DerivedUnits(units', balance', supply');
    MulMonotone(u, u', net);
    FloorMonotone(u * net, u' * net, UNIT_SCALE);
  }

  /** A slippage of `slippageBps` on proceeds of `p` leaves room for the supply to grow: for the share
      that the growth takes, and for one base unit in each rounding and in every whole token. */
  predicate Absorbs(p: nat, slippageBps: nat, supply: nat, supply': nat, net: nat) {
    BPS * (p * (supply' - supply) + (net / UNIT_SCALE + 2) * supply') <= p * slippageBps * supply'
  }

  /** Then the proceeds at the larger supply still meet the bound. */
  lemma ProceedsErodeSlowly(units: nat, balance: nat, supply: nat, supply': nat, net: nat, slippageBps: nat)
    requires 0 < supply <= supply'
    requires Absorbs(SlotProceeds(units, balance, supply, net), slippageBps, supply, supply', net)
    ensures var p := SlotProceeds(units, balance, supply, net);
      p <= SlotProceeds(units, balance, supply', net) + p * slippageBps / BPS
  {
    var p, p' := SlotProceeds(units, balance, supply, net), SlotProceeds(units, balance, supply', net);
    var n, k := net / UNIT_SCALE, p * slippageBps / BPS;
    ExitKeepsExactBacking(units, balance, supply, net);
    ProceedsNearShare(units, balance, supply', net, n);
    FloorBounds(p * slippageBps, BPS);
    ErosionCore(p, p', supply, supply', n, slippageBps, k, balance * net);
  }

  /** A part of the supply is paid its share of the vault but for one base unit in each of two roundings
      and in every whole token. */
  lemma ProceedsNearShare(units: nat, balance: nat, supply: nat, net: nat, n: nat)
    requires supply > 0 && n == net / UNIT_SCALE
    ensures balance * net < (SlotProceeds(units, balance, supply, net) + n + 2) * supply
  {
    var u, p := DerivedUnits(units, balance, supply), SlotProceeds(units, balance, supply, net);
    DerivedBounds(units, balance, supply);
    ProceedsBounds(units, balance, supply, net);
    FloorBounds(net, UNIT_SCALE);
    ShareBelow(balance, supply, u, net, p * UNIT_SCALE + UNIT_SCALE, UNIT_SCALE);
    MulStrict(p * UNIT_SCALE + UNIT_SCALE + net, (p + n + 2) * UNIT_SCALE, supply);
    Swap(p + n + 2, UNIT_SCALE, supply);
    CancelStrict(balance * net, (p + n + 2) * supply, UNIT_SCALE);
  }

  lemma ErosionCore(p: nat, p': nat, supply: nat, supply': nat, n: nat, slippageBps: nat, k: nat, share: nat)
    requires 0 < supply <= supply' && p * supply <= share < (p' + n + 2) * supply'
    requires BPS * (p * (supply' - supply) + (n + 2) * supply') <= p * slippageBps * supply'
    requires p * slippageBps < k * BPS + BPS
    ensures p <= p' + k
  {
    MulStrict(p * slippageBps, (k + 1) * BPS, supply');
    assert (k + 1) * BPS * supply' == (k + 1) * supply' * BPS;
    CancelStrict(p * (supply' - supply) + (n + 2) * supply', (k + 1) * supply', BPS);
    assert p * (supply' - supply) == p * supply' - p * supply;
    assert (p' + n + 2) * supply' == p' * supply' + (n + 2) * supply';
    assert (p' + k + 1) * supply' == p' * supply' + (k + 1) * supply';
    CancelStrict(p, p' + k + 1, supply');
  }

  /** Entering in two parts costs at least as much as entering at once. */
  lemma SplitCost(units: nat, units': nat, balance: nat, supply: nat, gA: nat, gB: nat, gAB: nat)
    requires 0 < gA && gAB <= gA + gB
    ensures var costA := SlotCost(units, balance, supply, gA);
      SlotCost(units, balance, supply, gAB) <= costA + SlotCost(units', balance + costA, supply + gA, gB)
  {
    EntryRaisesUnits(units, units', balance, supply, gA);
    SplitCore(DerivedUnits(units, balance, supply),
              DerivedUnits(units', balance + SlotCost(units, balance, supply, gA), supply + gA), gA, gB, gAB);
  }

  lemma SplitCore(u: nat, u': nat, gA: nat, gB: nat, gAB: nat)
    requires u <= u' && gAB <= gA + gB
    ensures CeilDiv(u * gAB, UNIT_SCALE) <= CeilDiv(u * gA, UNIT_SCALE) + CeilDiv(u' * gB, UNIT_SCALE)
  {
    MulMonotone(gAB, gA + gB, u);
    assert u * (gA + gB) == u * gA + u * gB;
    CeilMonotone(u * gAB, u * gA + u * gB, UNIT_SCALE);
    CeilSubadditive(u * gA, u * gB, UNIT_SCALE);
    MulMonotone(u, u', gB);
    CeilMonotone(u * gB, u' * gB, UNIT_SCALE);
  }
}
