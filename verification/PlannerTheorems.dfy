/** Every bid the planner plans is one the program accepts, and no bid worth making is left out. */
module PlannerTheorems {
  import opened Words
  import opened Division
  import opened FixedPoint
  import opened Kernel
  import opened Accounts
  import opened Handlers
  import opened Effects
  import opened Invariant
  import opened Auctions
  import opened Convergence
  import Math = SdkMath
  import opened Sdk
  import opened SdkTheorems
  import opened Planner

  // ---------------------------------------------------------------------------------------------
  // The search
  // ---------------------------------------------------------------------------------------------

  /** Pairs at (s, b) or later in the search order. */
  predicate Ahead(s: nat, b: nat, s': nat, b': nat) {
    s < s' || (s == s' && b <= b')
  }

  /** The search only adds bids that some pair calls for. */
  lemma {:induction false} PlannedFromPairs(x: PlanInput, premium: int, s: nat, b: nat, done: seq<Action>,
                                            plan: seq<Action>, a: Action)
    requires s <= Slots(x) && b <= Slots(x)
    requires PlanPairs(x, premium, s, b, done) == Some(plan) && a in plan && a !in done
    ensures a.ActBid? && a.sell < Slots(x) && a.buy < Slots(x)
    ensures PlanPair(x, premium, a.sell, a.buy) == Some([a])
    decreases Slots(x) - s, Slots(x) - b
  {
    if s < Slots(x) {
      if b == Slots(x) {
        PlannedFromPairs(x, premium, s + 1, 0, done, plan, a);
      } else {
        var pair := PlanPair(x, premium, s, b).value;
        if a !in pair {
          PlannedFromPairs(x, premium, s, b + 1, done + pair, plan, a);
        }
      }
    }
  }

  /** The search visits every pair and keeps what it has found. */
  lemma {:induction false} PairsArePlanned(x: PlanInput, premium: int, s: nat, b: nat, done: seq<Action>,
                                           plan: seq<Action>, s': nat, b': nat)
    requires s <= Slots(x) && b <= Slots(x) && s' < Slots(x) && b' < Slots(x)
    requires PlanPairs(x, premium, s, b, done) == Some(plan)
    ensures done <= plan
    ensures Ahead(s, b, s', b') ==>
      PlanPair(x, premium, s', b').Some? && forall a :: a in PlanPair(x, premium, s', b').value ==> a in plan
    decreases Slots(x) - s, Slots(x) - b
  {
    if s < Slots(x) {
      if b == Slots(x) {
        PairsArePlanned(x, premium, s + 1, 0, done, plan, s', b');
      } else {
        var pair := PlanPair(x, premium, s, b).value;
        PairsArePlanned(x, premium, s, b + 1, done + pair, plan, s', b');
        assert forall a :: a in pair ==> a in done + pair;
        assert forall a :: a in done + pair ==> a in plan;
      }
    }
  }

  /** The bids of a plan are exactly those that some pair calls for at the premium in force. */
  lemma PlanIsComplete(x: PlanInput, plan: seq<Action>, s: nat, b: nat, sellAmount: int, payment: int, premium: int,
                       edge: int)
    requires PlanOf(x) == Some(plan) && s < Slots(x) && b < Slots(x)
    ensures var bid := ActBid(s, b, sellAmount, payment, premium, edge);
      bid in plan <==> AuctionPremium(x.snapshot, x.now) == Some(premium) && PlanPair(x, premium, s, b) == Some([bid])
  {
    var bid := ActBid(s, b, sellAmount, payment, premium, edge);
    var offered := AuctionPremium(x.snapshot, x.now);
    var accrual := if x.snapshot.pendingFee >= x.policy.minAccrualTokens then [ActAccrue(x.snapshot.pendingFee)]
      else [];
    assert bid !in accrual;
    if offered.Some? {
      assert PlanPairs(x, offered.value, 0, 0, accrual) == Some(plan);
      PairsArePlanned(x, offered.value, 0, 0, accrual, plan, s, b);
      if bid in plan {
        PlannedFromPairs(x, offered.value, 0, 0, accrual, plan, bid);
        assert bid.premiumBps == offered.value;
      }
      if offered.value == premium && PlanPair(x, premium, s, b) == Some([bid]) {
        assert bid in [bid];
      }
    } else {
      assert bid !in accrual + [ActEnd];
    }
  }

  // ---------------------------------------------------------------------------------------------
  // One pair
  // ---------------------------------------------------------------------------------------------

  /** A size never exceeds the policy's share of what the leg may sell, so not that itself if the share
      is no more than the whole, and never costs more than the budget. */
  lemma SizeStaysInside(x: PlanInput, s: nat, b: nat, premium: int, size: Size)
    requires s < Slots(x) && b < Slots(x)
    requires AuctionLeg(x.snapshot, s).sellable >= 0 && Budget(x, b) >= 0
    requires SizeOf(x, s, b, premium) == size && size.Size? && size.sellAmount != 0
    ensures 0 < size.sellAmount
    ensures x.policy.maxLegShareBps <= BPS ==> size.sellAmount <= AuctionLeg(x.snapshot, s).sellable
    ensures size.sellAmount * BPS <= AuctionLeg(x.snapshot, s).sellable * x.policy.maxLegShareBps
    ensures size.payment <= Budget(x, b)
    ensures Payment(x, s, b, size.sellAmount, premium) == Some(size.payment)
  {
    var sellable, budget := AuctionLeg(x.snapshot, s).sellable, Budget(x, b);
    FloorBounds(sellable * x.policy.maxLegShareBps, BPS);
    var share := sellable * x.policy.maxLegShareBps / BPS;
    if x.policy.maxLegShareBps <= BPS {
      MulMonotone(x.policy.maxLegShareBps, BPS, sellable);
      CancelMul(share, sellable, BPS);
    }
    var quote := Payment(x, s, b, share, premium);
    if quote.Some? && quote.value > budget {
      FloorBounds(share * budget, quote.value);
      var trimmed := share * budget / quote.value;
      MulMonotone(budget, quote.value, share);
      CancelMul(trimmed, share, quote.value);
      MulMonotone(trimmed, share, BPS);
    }
  }

  /** The edge test is exact for a floor of at least one basis point: it passes precisely when the
      proceeds beat the payment, both at market, by the floor. A floor of zero or below gives away the
      last basis point, since the edge is truncated toward zero. */
  lemma EdgeClearsExactly(outValue: nat, inValue: nat, minEdgeBps: int)
    requires inValue > 0
    ensures EdgeBps(outValue, inValue) >= minEdgeBps <==>
      if minEdgeBps > 0 then minEdgeBps * inValue <= (outValue - inValue) * BPS
      else (minEdgeBps - 1) * inValue < (outValue - inValue) * BPS
  {
    TruncatedAtLeast((outValue - inValue) * BPS, inValue, minEdgeBps);
  }

  lemma TruncatedAtLeast(n: int, d: nat, m: int)
    requires d > 0
    ensures TruncDiv(n, d) >= m <==> if m > 0 then m * d <= n else (m - 1) * d < n
  {
    if n >= 0 {
      FloorBounds(n, d);
      if m > 0 {
        if m * d <= n {
          FloorAtLeast(m, n, d);
        } else {
          FloorBelow(m, n, d);
        }
      } else {
        MulMonotone(m - 1, -1, d);
      }
    } else {
      FloorBounds(-n, d);
      if m > 0 {
        MulStrict(0, m, d);
      } else {
        assert (1 - m) * d == -((m - 1) * d);
        if -n < (1 - m) * d {
          FloorBelow(1 - m, -n, d);
        } else {
          FloorAtLeast(1 - m, -n, d);
        }
      }
    }
  }

  /** At a floor of zero a bid that loses a tenth of a basis point at market is planned. */
  lemma ZeroFloorCanLose()
    ensures EdgeBps(99_999, 100_000) == 0
  {
  }

  /** What a planned bid promises: a size within the sell excess and the policy's share of it, the
      program's own price within both the inventory and the room of the bought leg, and an edge of at
      least the policy's floor. */
  ghost predicate SoundBid(x: PlanInput, a: Action) {
    && a.ActBid? && a.sell < Slots(x) && a.buy < Slots(x) && a.sell != a.buy
    && AuctionPremium(x.snapshot, x.now) == Some(a.premiumBps)
    && 0 < a.sellAmount <= AuctionLeg(x.snapshot, a.sell).sellable
    && a.sellAmount * BPS <= AuctionLeg(x.snapshot, a.sell).sellable * x.policy.maxLegShareBps
    && 0 < a.maxBuyAmount <= AuctionLeg(x.snapshot, a.buy).buyable
    && a.maxBuyAmount <= Entry(x.inventory, a.buy)
    && Payment(x, a.sell, a.buy, a.sellAmount, a.premiumBps) == Some(a.maxBuyAmount)
    && a.edgeBps >= x.policy.minEdgeBps
    && MarketValue(x, a.buy, a.maxBuyAmount) > 0
    && a.edgeBps == EdgeBps(MarketValue(x, a.sell, a.sellAmount), MarketValue(x, a.buy, a.maxBuyAmount))
  }

  lemma PaymentIsNat(x: PlanInput, s: nat, b: nat, sellAmount: nat, premium: int)
    requires s < Slots(x) && b < Slots(x) && premium <= BPS
    ensures Payment(x, s, b, sellAmount, premium).Some? ==> Payment(x, s, b, sellAmount, premium).value >= 0
  {
    var sell, buy := x.snapshot.account.components[s], x.snapshot.account.components[b];
    var valueOut := Math.ValueE9(sellAmount, sell.decimals, sell.refPriceE9);
    FloorBounds(sellAmount * sell.refPriceE9, Pow10(sell.decimals));
    Math.CeilAgrees(valueOut, BPS - premium, BPS);
    if buy.refPriceE9 > 0 {
      Math.CeilAgrees(CeilDiv(valueOut * (BPS - premium), BPS), Pow10(buy.decimals), buy.refPriceE9);
    }
  }

  /** A bid called for by a pair is sound. */
  lemma PairIsSound(x: PlanInput, premium: int, s: nat, b: nat, a: Action)
    requires s < Slots(x) && b < Slots(x) && x.policy.maxLegShareBps <= BPS && premium <= BPS
    requires AuctionPremium(x.snapshot, x.now) == Some(premium)
    requires PlanPair(x, premium, s, b) == Some([a])
    ensures SoundBid(x, a) && a.sell == s && a.buy == b
  {
    var size := SizeOf(x, s, b, premium);
    SizeStaysInside(x, s, b, premium, size);
    PaymentIsNat(x, s, b, size.sellAmount, premium);
    var buy := x.snapshot.account.components[b];
    var market := size.payment * Entry(x.marketPricesE9, b);
    FloorBounds(market, Pow10(buy.decimals));
  }

  /** Every bid of a plan is sound, at a premium of at most a hundred per cent. */
  lemma PlanIsSound(x: PlanInput, plan: seq<Action>, a: Action)
    requires PlanOf(x) == Some(plan) && a in plan && a.ActBid?
    requires x.policy.maxLegShareBps <= BPS
    requires x.snapshot.account.rebalance.startPremiumBps <= BPS && x.snapshot.account.rebalance.endPremiumBps <= BPS
    ensures SoundBid(x, a)
  {
    var r := x.snapshot.account.rebalance;
    var accrual := if x.snapshot.pendingFee >= x.policy.minAccrualTokens then [ActAccrue(x.snapshot.pendingFee)]
      else [];
    var premium := AuctionPremium(x.snapshot, x.now);
    assert premium.Some?;
    PlannedFromPairs(x, premium.value, 0, 0, accrual, plan, a);
    PremiumIsBounded(r, x.now);
    PairIsSound(x, premium.value, a.sell, a.buy, a);
  }

  lemma PremiumIsBounded(r: Rebalance, now: int)
    requires r.startPremiumBps <= BPS && r.endPremiumBps <= BPS
    requires Math.PremiumAt(r.startPremiumBps, r.endPremiumBps, r.startTs, r.endTs, now).Some?
    ensures Math.PremiumAt(r.startPremiumBps, r.endPremiumBps, r.startTs, r.endTs, now).value <= BPS
  {
    Math.DecayStaysInside(r.endPremiumBps - r.startPremiumBps, now - r.startTs, r.endTs - r.startTs);
  }

  // ---------------------------------------------------------------------------------------------
  // On the chain
  // ---------------------------------------------------------------------------------------------

  /** The input describes the chain as it stands. */
  ghost predicate UpToDate(x: PlanInput, w: World) {
    TakeSnapshot(w, w.clock) == Some(x.snapshot) && x.now == w.clock
  }

  lemma SoundPremium(w: World, x: PlanInput)
    requires UpToDate(x, w) && AuctionSound(w.index, w.clock) && AuctionPremium(x.snapshot, x.now).Some?
    ensures var r := w.index.rebalance;
      var premium := AuctionPremium(x.snapshot, x.now).value;
      && r.active && -1_000 <= premium <= 1_000
      && PremiumAt(r.startPremiumBps, r.endPremiumBps, r.startTs, r.endTs, w.clock) == Ok(premium)
  {
    var r := w.index.rebalance;
    ViewPremiumIsExact(w, x.snapshot);
    PremiumStaysInBand(r.startPremiumBps, r.endPremiumBps, r.startTs, r.endTs, w.clock);
  }

  /** The leg guards accept a planned bid at exactly the payment it was planned with, whenever the
      program can compute that payment and the cap of the bought leg. */
  lemma PlannedBidPassesLegs(w: World, x: PlanInput, plan: seq<Action>, a: Action)
    requires Sound(w) && UpToDate(x, w) && x.policy.maxLegShareBps <= BPS
    requires PlanOf(x) == Some(plan) && a in plan && a.ActBid?
    ensures SoundBid(x, a) && Slots(x) == |w.vaults| && -1_000 <= a.premiumBps <= 1_000 && a.sellAmount <= U64_MAX
    ensures
      (&& PriceFits(w.index.components[a.sell], w.index.components[a.buy], a.sellAmount, a.premiumBps)
       && Cap(w, a.buy) <= U64_MAX) ==>
        && a.maxBuyAmount <= U64_MAX
        && BidLegs(w, a.sell, a.buy, a.sellAmount, a.maxBuyAmount, a.premiumBps) == Ok(a.maxBuyAmount)
  {
    assert AuctionPremium(x.snapshot, x.now).Some?;
    SoundPremium(w, x);
    PlanIsSound(x, plan, a);
    LegAgrees(w, x.snapshot, a.sell);
    var sell, buy := w.index.components[a.sell], w.index.components[a.buy];
    if PriceFits(sell, buy, a.sellAmount, a.premiumBps) && Cap(w, a.buy) <= U64_MAX {
      BidCostIsExact(sell, buy, a.sellAmount, a.premiumBps);
      BidPaymentExactly(sell, buy, a.sellAmount, a.premiumBps);
      AuctionViewIsExact(w, x.snapshot, a.sell, a.buy, a.sellAmount, a.maxBuyAmount, a.premiumBps);
      BidLegsFacts(w, a.sell, a.buy, a.sellAmount, a.maxBuyAmount, a.premiumBps);
    }
  }

  /** A leg only has room once there are tokens to size its target by. */
  lemma RoomNeedsSupply(w: World, snap: Snapshot, i: nat)
    requires snap.account == w.index && snap.supply == w.supply && snap.balances == w.vaults && Complete(snap)
    requires i < |w.vaults| && AuctionLeg(snap, i).buyable > 0
    ensures w.supply > 0
  {
    LegAgrees(w, snap, i);
  }

  /** So on a live fund, below the premium ceiling, a planned bid passes every guard of the program:
      window, sizes, price and slippage. Only its settlement is left. */
  lemma PlannedBidPassesGuards(w: World, x: PlanInput, plan: seq<Action>, a: Action, bidder: Key, to: Key)
    requires Sound(w) && UpToDate(x, w) && x.policy.maxLegShareBps <= BPS
    requires PlanOf(x) == Some(plan) && a in plan && a.ActBid?
    requires w.index.status.Live? && a.premiumBps <= w.index.params.maxPremiumBps
    requires a.sell < |w.vaults| && a.buy < |w.vaults| && 0 <= a.sellAmount <= U64_MAX
      && -1_000 <= a.premiumBps <= 1_000
    requires PriceFits(w.index.components[a.sell], w.index.components[a.buy], a.sellAmount, a.premiumBps)
    requires Cap(w, a.buy) <= U64_MAX
    ensures 0 < a.maxBuyAmount <= U64_MAX
    ensures Bid(w, bidder, to, a.sell, a.buy, a.sellAmount, a.maxBuyAmount)
         == FillBid(w, bidder, to, a.sell, a.buy, a.sellAmount, a.maxBuyAmount)
  {
    PlannedBidPassesLegs(w, x, plan, a);
    SoundPremium(w, x);
    RoomNeedsSupply(w, x.snapshot, a.buy);
    assert BidPremium(w) == Ok(a.premiumBps);
  }
}
