/** When a bid goes through. */
module Bids {
  import opened Words
  import opened Division
  import opened FixedPoint
  import opened Sums
  import opened Shares
  import opened Accounts
  import opened Tokens
  import opened Handlers
  import opened Effects
  import opened Invariant
  import opened Auctions
  import opened Convergence

  // ---------------------------------------------------------------------------------------------
  // The legs
  // ---------------------------------------------------------------------------------------------

  lemma TargetFits(w: World, i: nat)
    requires i < |w.vaults|
    ensures TargetBalance(w.index.components[i].targetUnits, w.supply)
         == if Target(w, i) > U64_MAX then Err(MathOverflow) else Ok(Target(w, i))
  {
    ProductFits(w.index.components[i].targetUnits, w.supply);
  }

  lemma CapFits(w: World, i: nat)
    requires i < |w.vaults| && Target(w, i) <= U64_MAX
    ensures BuyCap(Target(w, i), w.index.params.maxPremiumBps)
         == if Cap(w, i) > U64_MAX then Err(MathOverflow) else Ok(Cap(w, i))
  {
    ProductFits(Target(w, i), w.index.params.maxPremiumBps);
    FloorBounds(Target(w, i) * w.index.params.maxPremiumBps, BPS);
  }

  /** What the legs of a bid have to meet: the cap fits its word, the sold leg is left at target or
      above, the bought one starts below its cap, and there is a price that fits under cap and limit. */
  predicate LegsMeet(w: World, s: nat, b: nat, sellAmount: nat, maxBuyAmount: nat, premium: int)
    requires s < |w.vaults| && b < |w.vaults|
  {
    var sell, buy := w.index.components[s], w.index.components[b];
    && Cap(w, b) <= U64_MAX
    && Target(w, s) + sellAmount <= w.vaults[s]
    && w.vaults[b] < Cap(w, b)
    && PriceFits(sell, buy, sellAmount, premium)
    && w.vaults[b] + PriceOf(sell, buy, sellAmount, premium) <= Cap(w, b)
    && PriceOf(sell, buy, sellAmount, premium) <= maxBuyAmount
  }

  /** The leg guards in terms of targets, caps and prices. */
  lemma LegGuards(w: World, s: nat, b: nat, sellAmount: uint64, maxBuyAmount: uint64, premium: int32)
    requires s < |w.vaults| && b < |w.vaults| && sellAmount > 0
    ensures var legs := BidLegs(w, s, b, sellAmount, maxBuyAmount, premium);
      && (legs.Ok? <==> LegsMeet(w, s, b, sellAmount, maxBuyAmount, premium))
      && (legs.Ok? ==> legs.value == PriceOf(w.index.components[s], w.index.components[b], sellAmount, premium))
  {
    FloorBounds(Target(w, b) * w.index.params.maxPremiumBps, BPS);
    TargetFits(w, s);
    TargetFits(w, b);
    BidPaymentExactly(w.index.components[s], w.index.components[b], sellAmount, premium);
    if Target(w, b) <= U64_MAX {
      CapFits(w, b);
    }
  }

  // ---------------------------------------------------------------------------------------------
  // The settlement
  // ---------------------------------------------------------------------------------------------

  /** Vaults after a fill. */
  function FilledVaults(w: World, s: nat, b: nat, sellAmount: uint64, buyAmount: uint64): seq<uint64>
    requires s < |w.vaults| && b < |w.vaults|
    requires sellAmount <= w.vaults[s] && w.vaults[b] + buyAmount <= U64_MAX
  {
    w.vaults[b := w.vaults[b] + buyAmount][s := w.vaults[s] - sellAmount]
  }

  /** What a settlement has to meet: the bidder holds the payment, the recipient has room for what is
      sold, and the vaults it leaves can be valued, meet the floor and have units that fit. */
  ghost predicate FillMeets(w: World, bidder: Key, to: Key, s: nat, b: nat, sellAmount: uint64, buyAmount: uint64)
    requires s < |w.vaults| && b < |w.vaults|
    requires sellAmount <= w.vaults[s] && w.vaults[b] + buyAmount <= U64_MAX
  {
    var cs, vaults := w.index.components, FilledVaults(w, s, b, sellAmount, buyAmount);
    && buyAmount <= Balance(w.wallets, ComponentAccount(w, bidder, b))
    && Balance(w.wallets, ComponentAccount(w, to, s)) + sellAmount <= U64_MAX
    && NavFits(cs, vaults)
    && w.index.rebalance.navFloorE6 <= Sum(Values(cs, vaults)) / 1_000
    && forall i :: 0 <= i < |vaults| ==> DerivedUnits(cs[i].units, vaults[i], w.supply) <= U64_MAX
  }

  /** The two transfers of a fill go through exactly when the bidder can pay and the recipient can hold. */
  lemma TransfersSucceedExactly(w: World, bidder: Key, to: Key, s: nat, b: nat, sellAmount: uint64, buyAmount: uint64)
    requires s < |w.vaults| && b < |w.vaults| && s != b && Distinct(w.index.components)
    requires sellAmount <= w.vaults[s] && w.vaults[b] + buyAmount <= U64_MAX
    ensures var paid := TransferFromUser(w, bidder, b, buyAmount);
      && (paid.Ok? <==> buyAmount <= Balance(w.wallets, ComponentAccount(w, bidder, b)))
      && (paid.Ok? ==>
            && |paid.value.vaults| == |w.vaults|
            && (TransferFromVault(paid.value, s, to, sellAmount).Ok? <==>
                  Balance(w.wallets, ComponentAccount(w, to, s)) + sellAmount <= U64_MAX))
  {
    var paid := TransferFromUser(w, bidder, b, buyAmount);
    if paid.Ok? {
      assert w.index.components[s].mint != w.index.components[b].mint;
      assert ComponentAccount(w, to, s) != ComponentAccount(w, bidder, b);
      assert Balance(paid.value.wallets, ComponentAccount(w, to, s)) == Balance(w.wallets, ComponentAccount(w, to, s));
    }
  }

  /** What the transfers leave. */
  lemma TransferredWorld(w: World, bidder: Key, to: Key, s: nat, b: nat, sellAmount: uint64, buyAmount: uint64,
                         paid: World, filled: World)
    requires s < |w.vaults| && b < |w.vaults| && s != b && |paid.vaults| == |w.vaults|
    requires sellAmount <= w.vaults[s] && w.vaults[b] + buyAmount <= U64_MAX
    requires TransferFromUser(w, bidder, b, buyAmount) == Ok(paid)
    requires TransferFromVault(paid, s, to, sellAmount) == Ok(filled)
    ensures filled.vaults == FilledVaults(w, s, b, sellAmount, buyAmount)
    ensures filled.index == w.index && filled.supply == w.supply
  {
  }

  /** The floor and the closing sync. */
  lemma FloorAndSyncSucceedExactly(w: World, filled: World)
    requires |filled.vaults| == |w.vaults| && filled.index == w.index && filled.supply == w.supply
    ensures var cs := w.index.components;
      (&& NavE6(filled.index.components, filled.vaults).Ok?
       && w.index.rebalance.navFloorE6 <= NavE6(filled.index.components, filled.vaults).value
       && SyncUnits(filled).Ok?)
      <==>
      && NavFits(cs, filled.vaults)
      && w.index.rebalance.navFloorE6 <= Sum(Values(cs, filled.vaults)) / 1_000
      && forall i :: 0 <= i < |filled.vaults| ==> DerivedUnits(cs[i].units, filled.vaults[i], w.supply) <= U64_MAX
  {
    NavE6Exactly(w.index.components, filled.vaults);
    SyncUnitsEffect(filled);
  }

  /** A fill goes through exactly when the bidder holds the payment, the recipient has room, NAV meets
      the floor and the derived units still fit. */
  lemma FillSucceedsExactly(w: World, bidder: Key, to: Key, s: nat, b: nat, sellAmount: uint64, buyAmount: uint64)
    requires s < |w.vaults| && b < |w.vaults| && s != b && Distinct(w.index.components)
    requires sellAmount <= w.vaults[s] && w.vaults[b] + buyAmount <= U64_MAX
    ensures FillBid(w, bidder, to, s, b, sellAmount, buyAmount).Ok?
       <==> FillMeets(w, bidder, to, s, b, sellAmount, buyAmount)
  {
    TransfersSucceedExactly(w, bidder, to, s, b, sellAmount, buyAmount);
    var paid := TransferFromUser(w, bidder, b, buyAmount);
    if paid.Ok? && TransferFromVault(paid.value, s, to, sellAmount).Ok? {
      var filled := TransferFromVault(paid.value, s, to, sellAmount).value;
      TransferredWorld(w, bidder, to, s, b, sellAmount, buyAmount, paid.value, filled);
      FloorAndSyncSucceedExactly(w, filled);
    }
  }

  // ---------------------------------------------------------------------------------------------
  // The whole instruction
  // ---------------------------------------------------------------------------------------------

  /** Where the premium of the auction stands. */
  function PremiumNow(w: World): int {
    var r := w.index.rebalance;
    r.startPremiumBps + Decayed(r.endPremiumBps - r.startPremiumBps, w.clock - r.startTs, r.endTs - r.startTs)
  }

  /** A live fund's auction is inside its window and its premium within the index's ceiling. */
  predicate OpenToBids(w: World) {
    var r := w.index.rebalance;
    && w.index.status.Live? && r.active && r.startTs <= w.clock <= r.endTs
    && PremiumNow(w) <= w.index.params.maxPremiumBps
  }

  lemma PricedAtPremiumNow(w: World)
    requires AuctionSound(w.index, w.clock)
    ensures BidPremium(w).Ok? <==> OpenToBids(w)
    ensures BidPremium(w).Ok? ==> BidPremium(w).value == PremiumNow(w)
  {
    BidOpensExactly(w);
  }

  /** Everything a bid has to meet. */
  ghost predicate BidMeets(w: World, bidder: Key, to: Key, s: nat, b: nat, sellAmount: uint64, maxBuyAmount: uint64) {
    && s != b && s < |w.vaults| && b < |w.vaults| && 0 < sellAmount
    && OpenToBids(w)
    && LegsMeet(w, s, b, sellAmount, maxBuyAmount, PremiumNow(w))
    && FillMeets(w, bidder, to, s, b, sellAmount,
                 PriceOf(w.index.components[s], w.index.components[b], sellAmount, PremiumNow(w)))
  }

  lemma CapNeedsSupply(w: World, b: nat)
    requires b < |w.vaults| && w.vaults[b] < Cap(w, b)
    ensures w.supply > 0
  {
  }

  /** In a sound fund a bid is accepted exactly when two different slots are traded, the amount is
      positive, the auction open, both legs inside their limits at a price that fits, the bidder able to
      pay and the recipient to hold, and what is left can be valued, meets the floor and has units that
      fit. */
  lemma BidSucceedsExactly(w: World, bidder: Key, to: Key, s: uint8, b: uint8, sellAmount: uint64, maxBuyAmount: uint64)
    requires Sound(w)
    ensures Bid(w, bidder, to, s, b, sellAmount, maxBuyAmount).Ok?
       <==> BidMeets(w, bidder, to, s, b, sellAmount, maxBuyAmount)
  {
    PricedAtPremiumNow(w);
    if s != b && s < |w.vaults| && b < |w.vaults| && 0 < sellAmount && OpenToBids(w) {
      var premium := BidPremium(w).value;
      LegGuards(w, s, b, sellAmount, maxBuyAmount, premium);
      if LegsMeet(w, s, b, sellAmount, maxBuyAmount, premium) {
        CapNeedsSupply(w, b);
        FillSucceedsExactly(w, bidder, to, s, b, sellAmount,
                            PriceOf(w.index.components[s], w.index.components[b], sellAmount, premium));
      }
    }
  }
}
