/** When a proposal is accepted, and what it writes. */
module Proposals {
  import opened Words
  import opened Division
  import opened FixedPoint
  import opened Sums
  import opened Accounts
  import opened Handlers
  import opened Effects
  import opened Invariant
  import opened Auctions

  /** The table with new targets and prices in every slot. */
  function Proposed(cs: seq<Component>, targets: seq<uint64>, prices: seq<uint64>): (ds: seq<Component>)
    requires |targets| == |prices| == |cs|
    ensures |ds| == |cs|
    ensures forall i :: 0 <= i < |cs| ==> ds[i] == cs[i].(targetUnits := targets[i], refPriceE9 := prices[i])
  {
    seq(|cs|, i requires 0 <= i < |cs| => cs[i].(targetUnits := targets[i], refPriceE9 := prices[i]))
  }

  lemma RetargetedIsProposed(cs: seq<Component>, targets: seq<uint64>, prices: seq<uint64>)
    requires |targets| == |prices| == |cs|
    ensures RetargetFrom(cs, targets, prices, 0) == Proposed(cs, targets, prices)
  {
    RetargetEffect(cs, targets, prices, 0);
  }

  /** Premiums in order and, like the declared loss, within `ceiling` basis points. */
  predicate WithinCeiling(p: AuctionParams, ceiling: int) {
    -ceiling <= p.startPremiumBps <= p.endPremiumBps <= ceiling && p.maxNavLossBps <= ceiling
  }

  /** Everything a proposal has to meet. */
  ghost predicate ProposalMeets(w: World, caller: Key, targets: seq<uint64>, prices: seq<uint64>, p: AuctionParams) {
    && w.index.status.Live? && caller == w.index.manager && !w.index.rebalance.active
    && |targets| == |prices| == |w.vaults|
    && 0 < p.duration <= MAX_AUCTION_DURATION
    && WithinCeiling(p, w.index.params.maxPremiumBps)
    && (forall i :: 0 <= i < |prices| ==> prices[i] > 0)
    && NavFits(Proposed(w.index.components, targets, prices), w.vaults)
    && w.clock + w.index.params.rebalanceDelay + p.duration <= I64_MAX
  }

  /** The record of an auction that a proposal opens: the floor is NAV at the proposal's prices, less the
      declared loss, rounded down. */
  ghost predicate Opens(w: World, caller: Key, nav: nat, p: AuctionParams, r: Rebalance) {
    && r.active && r.proposer == caller && r.proposedAt == w.clock
    && r.startTs == w.clock + w.index.params.rebalanceDelay && r.endTs == r.startTs + p.duration
    && r.startPremiumBps == p.startPremiumBps && r.endPremiumBps == p.endPremiumBps
    && r.maxNavLossBps == p.maxNavLossBps
    && r.navFloorE6 * BPS <= nav * (BPS - p.maxNavLossBps) < (r.navFloorE6 + 1) * BPS
  }

  /** The floor of a declared loss of at most the whole always fits. */
  lemma FloorFits(nav: uint64, lossBps: uint16)
    requires lossBps <= BPS
    ensures var kept: uint128 := BPS - lossBps;
      && MulDivFloor(nav, kept, BPS) == Ok(nav * kept / BPS)
      && ToU64(nav * kept / BPS) == Ok(nav * kept / BPS)
      && nav * kept / BPS * BPS <= nav * kept < (nav * kept / BPS + 1) * BPS
  {
    var kept := BPS - lossBps;
    ProductFits(nav, kept);
    FloorBounds(nav * kept, BPS);
    MulMonotone(kept, BPS, nav);
    CancelMul(nav * kept / BPS, nav, BPS);
  }

  /** The guards before the table is touched. */
  ghost predicate ProposalGuards(w: World, caller: Key, targets: seq<uint64>, prices: seq<uint64>, p: AuctionParams) {
    && w.index.status.Live? && caller == w.index.manager && !w.index.rebalance.active
    && |targets| == |prices| == |w.vaults|
    && 0 < p.duration <= MAX_AUCTION_DURATION
    && WithinCeiling(p, w.index.params.maxPremiumBps)
    && 0 !in prices
  }

  lemma UnguardedProposalFails(w: World, caller: Key, targets: seq<uint64>, prices: seq<uint64>, p: AuctionParams)
    requires Sound(w) && !ProposalGuards(w, caller, targets, prices, p)
    ensures ProposeRebalance(w, caller, targets, prices, p).Err?
  {
  }

  lemma GuardedProposal(w: World, caller: Key, targets: seq<uint64>, prices: seq<uint64>, p: AuctionParams)
    requires Sound(w) && ProposalGuards(w, caller, targets, prices, p)
    ensures p.maxNavLossBps <= BPS
    ensures var cs, r := Proposed(w.index.components, targets, prices), ProposeRebalance(w, caller, targets, prices, p);
      && (r.Ok? <==> NavFits(cs, w.vaults) && w.clock + w.index.params.rebalanceDelay + p.duration <= I64_MAX)
      && (r.Ok? ==>
            && Opens(w, caller, Sum(Values(cs, w.vaults)) / 1_000, p, r.value.index.rebalance)
            && r.value == w.(index := w.index.(components := cs, rebalance := r.value.index.rebalance)))
  {
    var cs := Proposed(w.index.components, targets, prices);
    RetargetedIsProposed(w.index.components, targets, prices);
    NavE6Exactly(cs, w.vaults);
    if NavFits(cs, w.vaults) {
      FloorFits(Sum(Values(cs, w.vaults)) / 1_000, p.maxNavLossBps);
    }
  }

  /** In a sound fund a proposal is accepted exactly when the fund is live without an auction, the
      manager calls, both lists have the table's length, the auction lasts up to seven days, premiums
      and loss are within the ceiling, every price is positive, NAV at the new prices fits and the
      window ends within the clock. */
  lemma ProposalSucceedsExactly(w: World, caller: Key, targets: seq<uint64>, prices: seq<uint64>, p: AuctionParams)
    requires Sound(w)
    ensures ProposeRebalance(w, caller, targets, prices, p).Ok? <==> ProposalMeets(w, caller, targets, prices, p)
  {
    assert 0 !in prices <==> forall i :: 0 <= i < |prices| ==> prices[i] > 0;
    if ProposalGuards(w, caller, targets, prices, p) {
      GuardedProposal(w, caller, targets, prices, p);
    } else {
      UnguardedProposalFails(w, caller, targets, prices, p);
    }
  }

  /** It then writes its own targets and prices over every slot, opens the auction it describes on a
      floor that is NAV less the declared loss, and touches nothing else. */
  lemma ProposalOpensAuction(w: World, caller: Key, targets: seq<uint64>, prices: seq<uint64>, p: AuctionParams,
                             w': World)
    requires Sound(w) && ProposeRebalance(w, caller, targets, prices, p) == Ok(w')
    ensures |targets| == |prices| == |w.vaults|
    ensures var cs := Proposed(w.index.components, targets, prices);
      && w' == w.(index := w.index.(components := cs, rebalance := w'.index.rebalance))
      && Opens(w, caller, Sum(Values(cs, w.vaults)) / 1_000, p, w'.index.rebalance)
  {
    if ProposalGuards(w, caller, targets, prices, p) {
      GuardedProposal(w, caller, targets, prices, p);
    } else {
      UnguardedProposalFails(w, caller, targets, prices, p);
    }
  }
}
