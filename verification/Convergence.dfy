/** Where an auction takes the vaults: into the bands around their targets, and how many fills that
    can need. */
module Convergence {
  import opened Words
  import opened Division
  import opened FixedPoint
  import opened Sums
  import opened Accounts
  import opened Handlers
  import opened Effects
  import opened Runs
  import opened Frames
  import opened Invariant
  import opened Auctions

  // ---------------------------------------------------------------------------------------------
  // Bands
  // ---------------------------------------------------------------------------------------------

  /** Vault balance slot `i` is aiming at. */
  function Target(w: World, i: nat): nat
    requires i < |w.vaults|
  {
    w.index.components[i].targetUnits * w.supply / UNIT_SCALE
  }

  /** Vault balance an auction may raise slot `i` to. */
  function Cap(w: World, i: nat): nat
    requires i < |w.vaults|
  {
    FloorBounds(Target(w, i) * w.index.params.maxPremiumBps, BPS);
    Target(w, i) + Target(w, i) * w.index.params.maxPremiumBps / BPS
  }

  /** How far slot `i` stands from its band between target and cap. */
  function Distance(w: World, i: nat): nat
    requires i < |w.vaults|
  {
    if w.vaults[i] < Target(w, i) then Target(w, i) - w.vaults[i]
    else if w.vaults[i] > Cap(w, i) then w.vaults[i] - Cap(w, i)
    else 0
  }

  function Distances(w: World): (ds: seq<nat>)
    ensures |ds| == |w.vaults| && forall i :: 0 <= i < |ds| ==> ds[i] == Distance(w, i)
  {
    seq(|w.vaults|, i requires 0 <= i < |w.vaults| => Distance(w, i))
  }

  function TotalDistance(w: World): nat {
    Sum(Distances(w))
  }

  /** Two worlds aim at the same bands. */
  ghost predicate SameBands(w: World, w': World) {
    && |w'.vaults| == |w.vaults|
    && w'.supply == w.supply
    && w'.index.params == w.index.params
    && SamePlan(w'.index.components, w.index.components)
  }

  lemma SameBandsFacts(w: World, w': World, i: nat)
    requires SameBands(w, w') && i < |w.vaults|
    ensures Target(w', i) == Target(w, i) && Cap(w', i) == Cap(w, i)
  {
  }

  // ---------------------------------------------------------------------------------------------
  // One fill
  // ---------------------------------------------------------------------------------------------

  /** What an accepted bid pays into the leg it buys. */
  function Paid(w: World, step: Step): nat
    requires step.DoBid? && Apply(w, step).Ok?
  {
    BidFrame(w, step);
    BidLegs(w, step.sell, step.buy, step.sellAmount, step.maxBuyAmount, BidPremium(w).value).value
  }

  lemma TargetBalanceValue(w: World, i: nat)
    requires i < |w.vaults| && TargetBalance(w.index.components[i].targetUnits, w.supply).Ok?
    ensures TargetBalance(w.index.components[i].targetUnits, w.supply).value == Target(w, i)
    ensures BuyCap(TargetBalance(w.index.components[i].targetUnits, w.supply).value,
                   w.index.params.maxPremiumBps).Ok? ==>
      BuyCap(TargetBalance(w.index.components[i].targetUnits, w.supply).value, w.index.params.maxPremiumBps).value
        == Cap(w, i)
  {
  }

  /** An accepted bid sells down toward the target and no further, buys up from below the cap and no
      further, and leaves every other vault and all bands alone. */
  lemma FillStaysInside(w: World, step: Step, w': World)
    requires step.DoBid? && Apply(w, step) == Ok(w')
    ensures step.sell < |w.vaults| && step.buy < |w.vaults| && step.sell != step.buy && SameBands(w, w')
    ensures Target(w, step.sell) <= w'.vaults[step.sell] < w.vaults[step.sell]
    ensures w.vaults[step.buy] < Cap(w, step.buy)
    ensures w'.vaults[step.buy] == w.vaults[step.buy] + Paid(w, step) <= Cap(w, step.buy)
    ensures forall i :: 0 <= i < |w.vaults| && i != step.sell as int && i != step.buy as int ==>
      w'.vaults[i] == w.vaults[i]
  {
    BidFrame(w, step);
    var buyAmount := Paid(w, step);
    BidLegsFacts(w, step.sell, step.buy, step.sellAmount, step.maxBuyAmount, BidPremium(w).value);
    FillBidEffect(w, step.bidder, step.to, step.sell, step.buy, step.sellAmount, buyAmount, w');
    TargetBalanceValue(w, step.sell);
    TargetBalanceValue(w, step.buy);
  }

  /** A fill that sells from above the cap, or pays a positive amount into a leg below target. */
  predicate Productive(w: World, step: Step) {
    && step.DoBid? && Apply(w, step).Ok?
    && step.sell < |w.vaults| && step.buy < |w.vaults|
    && (|| w.vaults[step.sell] > Cap(w, step.sell)
        || (w.vaults[step.buy] < Target(w, step.buy) && Paid(w, step) > 0))
  }

  lemma FillDistance(w: World, step: Step, w': World, i: nat)
    requires step.DoBid? && Apply(w, step) == Ok(w') && i < |w.vaults|
    ensures |w'.vaults| == |w.vaults| && Distance(w', i) <= Distance(w, i)
    ensures i == step.sell as int && w.vaults[i] > Cap(w, i) ==> Distance(w', i) < Distance(w, i)
    ensures i == step.buy as int && w.vaults[i] < Target(w, i) && Paid(w, step) > 0 ==> Distance(w', i) < Distance(w, i)
    ensures !Productive(w, step) ==> Distance(w', i) == Distance(w, i)
  {
    FillStaysInside(w, step, w');
    SameBandsFacts(w, w', i);
  }

  /** No fill moves the vaults away from their bands in total, and exactly the productive ones move
      them closer. */
  lemma FillApproachesBands(w: World, step: Step, w': World)
    requires step.DoBid? && Apply(w, step) == Ok(w')
    ensures TotalDistance(w') <= TotalDistance(w)
    ensures TotalDistance(w') < TotalDistance(w) <==> Productive(w, step)
  {
    FillStaysInside(w, step, w');
    forall i | 0 <= i < |w.vaults|
      ensures Distances(w')[i] <= Distances(w)[i]
      ensures !Productive(w, step) ==> Distances(w')[i] == Distances(w)[i]
    {
      FillDistance(w, step, w', i);
    }
    if Productive(w, step) {
      var i: nat := if w.vaults[step.sell] > Cap(w, step.sell) then step.sell else step.buy;
      FillDistance(w, step, w', i);
      SumStrict(Distances(w'), Distances(w), i);
    } else {
      assert Distances(w') == Distances(w);
    }
  }

  // ---------------------------------------------------------------------------------------------
  // Runs of fills
  // ---------------------------------------------------------------------------------------------

  /** Steps that leave supply, parameters, plan and vaults to the bids. */
  predicate Steady(step: Step) {
    step.DoBid? || step.Wait? || step.Send? || step.DoSetAuthority? || step.DoSetPaused?
  }

  /** Slot `i` stands between the lower of its start and its target and the higher of its start and
      its cap, and no further from its band than it started. */
  ghost predicate StaysInside(w: World, w': World, i: nat)
    requires i < |w.vaults| && |w'.vaults| == |w.vaults|
  {
    && (w'.vaults[i] >= w.vaults[i] || w'.vaults[i] >= Target(w, i))
    && (w'.vaults[i] <= w.vaults[i] || w'.vaults[i] <= Cap(w, i))
    && (Target(w, i) <= w.vaults[i] <= Cap(w, i) ==> Target(w, i) <= w'.vaults[i] <= Cap(w, i))
  }

  lemma SteadyStep(w: World, v: World, step: Step, i: nat)
    requires Steady(step) && SameBands(w, v) && i < |w.vaults| && StaysInside(w, v, i)
    ensures SameBands(w, Next(v, step)) && StaysInside(w, Next(v, step), i)
  {
    if step.DoBid? && Apply(v, step).Ok? {
      FillStaysInside(v, step, Next(v, step));
      SameBandsFacts(w, v, i);
      SamePlanTransitive(w.index.components, v.index.components, Next(v, step).index.components);
    }
  }

  /** Over any run of bids each component stays between where it started and its band, and the band
      absorbs it. */
  lemma {:induction false} BandsAbsorb(worlds: seq<World>, steps: seq<Step>, k: nat, i: nat)
    requires Run(worlds, steps) && k <= |steps| && i < |worlds[0].vaults|
    requires forall j :: 0 <= j < k ==> Steady(steps[j])
    ensures SameBands(worlds[0], worlds[k]) && StaysInside(worlds[0], worlds[k], i)
  {
    if k == 0 {
    } else {
      BandsAbsorb(worlds, steps, k - 1, i);
      assert Follows(worlds, steps, k - 1);
      SteadyStep(worlds[0], worlds[k - 1], steps[k - 1], i);
    }
  }

  /** The productive fills among the first `k` steps. */
  ghost function ProductiveFills(worlds: seq<World>, steps: seq<Step>, k: nat): nat
    requires |worlds| == |steps| + 1 && k <= |steps|
  {
    if k == 0 then 0
    else ProductiveFills(worlds, steps, k - 1) + (if Productive(worlds[k - 1], steps[k - 1]) then 1 else 0)
  }

  lemma SteadyStepDistance(w: World, step: Step)
    requires Steady(step)
    ensures TotalDistance(Next(w, step)) + (if Productive(w, step) then 1 else 0) <= TotalDistance(w)
  {
    if step.DoBid? && Apply(w, step).Ok? {
      FillApproachesBands(w, step, Next(w, step));
    } else {
      assert Distances(Next(w, step)) == Distances(w);
    }
  }

  /** The total distance to the bands never rises over a run of bids, and the productive fills are no
      more than the distance there was to cover. */
  lemma {:induction false} AuctionConverges(worlds: seq<World>, steps: seq<Step>, k: nat)
    requires Run(worlds, steps) && k <= |steps|
    requires forall j :: 0 <= j < k ==> Steady(steps[j])
    ensures TotalDistance(worlds[k]) + ProductiveFills(worlds, steps, k) <= TotalDistance(worlds[0])
  {
    if k == 0 {
    } else {
      AuctionConverges(worlds, steps, k - 1);
      assert Follows(worlds, steps, k - 1);
      SteadyStepDistance(worlds[k - 1], steps[k - 1]);
    }
  }

  /** Distance of a balance from a target. */
  function Gap(balance: nat, target: nat): nat {
    if balance < target then target - balance else balance - target
  }

  /** Every fill brings the leg it sells closer to its target. */
  lemma SaleMovesTowardTarget(w: World, step: Step, w': World)
    requires step.DoBid? && Apply(w, step) == Ok(w')
    ensures step.sell < |w.vaults| == |w'.vaults|
    ensures Gap(w'.vaults[step.sell], Target(w, step.sell)) < Gap(w.vaults[step.sell], Target(w, step.sell))
  {
    FillStaysInside(w, step, w');
  }

  /** It brings the leg it buys closer exactly when that leg is below target and the payment is
      positive and less than twice the shortfall. */
  lemma PurchaseMovesTowardTargetExactly(w: World, step: Step, w': World)
    requires step.DoBid? && Apply(w, step) == Ok(w')
    ensures step.buy < |w.vaults| == |w'.vaults|
    ensures Gap(w'.vaults[step.buy], Target(w, step.buy)) < Gap(w.vaults[step.buy], Target(w, step.buy))
       <==>
         && w.vaults[step.buy] < Target(w, step.buy)
         && 0 < Paid(w, step) < 2 * (Target(w, step.buy) - w.vaults[step.buy])
  {
    FillStaysInside(w, step, w');
  }

  /** What a bid pays is nothing exactly when what it takes is worth less than a nanodollar: then the
      leg bought does not move at all. */
  lemma BidPaysExactly(w: World, step: Step, w': World)
    requires Sound(w) && step.DoBid? && Apply(w, step) == Ok(w')
    ensures step.sell < |w.vaults|
    ensures var sold := w.index.components[step.sell];
      Paid(w, step) > 0 <==> step.sellAmount * sold.refPriceE9 >= Pow10(sold.decimals)
  {
    PaidFor(w, step, w');
    PremiumBelowPar(w);
    PaymentIsPositiveExactly(w.index.components[step.sell], w.index.components[step.buy], step.sellAmount,
                             BidPremium(w).value);
  }

  lemma PremiumBelowPar(w: World)
    requires Sound(w) && BidPremium(w).Ok?
    ensures BidPremium(w).value <= MAX_PREMIUM_CEILING_BPS
  {
  }

  lemma PaidFor(w: World, step: Step, w': World)
    requires step.DoBid? && Apply(w, step) == Ok(w')
    ensures step.sell < |w.vaults| && step.buy < |w.vaults| && BidPremium(w).Ok? && BidPremium(w).value <= BPS
    ensures w.index.components[step.buy].refPriceE9 > 0
    ensures Paid(w, step)
      == PaymentFor(ValueIn(SlotValue(w.index.components[step.sell], step.sellAmount), BidPremium(w).value),
                                        w.index.components[step.buy])
  {
    var premium, buyAmount := BidIsStaged(w, step, w');
    LegsPrice(w, step.sell, step.buy, step.sellAmount, step.maxBuyAmount, premium, buyAmount);
  }

  /** Each of the roundings of a price keeps it positive, except the first. */
  lemma PaymentIsPositiveExactly(sold: Component, bought: Component, amount: nat, premium: int)
    requires premium < BPS && bought.refPriceE9 > 0
    ensures PaymentFor(ValueIn(SlotValue(sold, amount), premium), bought) > 0
       <==> amount * sold.refPriceE9 >= Pow10(sold.decimals)
  {
    var valueOut := SlotValue(sold, amount);
    SlotValueIsPositive(sold, amount);
    RoundingUpKeepsPositive(valueOut, BPS - premium, BPS);
    RoundingUpKeepsPositive(ValueIn(valueOut, premium), Pow10(bought.decimals), bought.refPriceE9);
  }

  lemma SlotValueIsPositive(c: Component, amount: nat)
    ensures SlotValue(c, amount) > 0 <==> amount * c.refPriceE9 >= Pow10(c.decimals)
  {
    var value, scale := amount * c.refPriceE9, Pow10(c.decimals);
    if value >= scale {
      FloorAtLeast(1, value, scale);
    } else {
      FloorBelow(1, value, scale);
    }
  }

  lemma RoundingUpKeepsPositive(n: nat, m: nat, d: nat)
    requires m > 0 && d > 0
    ensures CeilDiv(n * m, d) > 0 <==> n > 0
  {
    if n > 0 {
      MulStrict(0, n, m);
      CeilAbove(0, n * m, d);
    } else {
      CeilAtMost(0, n * m, d);
    }
  }
}
