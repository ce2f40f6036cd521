/** Safety of the rebalancing protocol over whole runs: notice, commitment, a frozen table, and who
    may empty a vault. */
module Protocol {
  import opened Words
  import opened Division
  import opened FixedPoint
  import opened Kernel
  import opened Shares
  import opened Accounts
  import opened Handlers
  import opened Effects
  import opened Runs
  import opened Frames
  import opened Invariant
  import opened Holders
  import opened Auctions
  import opened Convergence

  // ---------------------------------------------------------------------------------------------
  // One auction at a time, on one plan
  // ---------------------------------------------------------------------------------------------

  /** The auction running in `w` is the one running in `v`, on the same floor, window, premiums,
      targets and prices. */
  ghost predicate SameAuction(v: World, w: World) {
    && w.index.rebalance == v.index.rebalance
    && SamePlan(w.index.components, v.index.components)
  }

  /** While an auction runs, no step rewrites it: it can only end. */
  lemma RunningAuctionStands(w: World, step: Step)
    requires Sound(w) && w.index.rebalance.active && Next(w, step).index.rebalance.active
    ensures SameAuction(w, Next(w, step))
  {
    TableFrame(w, step);
    if Apply(w, step).Ok? {
      if step.DoPropose? {
        ProposeFrame(w, step);
      } else if step.DoEnd? {
        EndFrame(w, step);
      }
    }
  }

  /** Only an accepted proposal starts an auction. */
  lemma OnlyProposalsStart(w: World, step: Step)
    requires !w.index.rebalance.active && Next(w, step).index.rebalance.active
    ensures step.DoPropose? && Apply(w, step).Ok?
  {
    if !step.DoPropose? {
      if w.index.status.Sealed() {
        TableFrame(w, step);
        if step.DoEnd? && Apply(w, step).Ok? {
          EndFrame(w, step);
        }
      } else {
        UnsealedFrame(w, step);
      }
      assert false;
    }
  }

  /** Behind every world with a running auction there is the proposal that started it, and the plan
      has stood since. */
  lemma {:induction false} ProposalBehind(worlds: seq<World>, steps: seq<Step>, k: nat) returns (j: nat)
    requires Run(worlds, steps) && Sound(worlds[0]) && !worlds[0].index.rebalance.active
    requires k <= |steps| && worlds[k].index.rebalance.active
    ensures j < k && steps[j].DoPropose? && Apply(worlds[j], steps[j]).Ok? && worlds[j + 1] == Next(worlds[j], steps[j])
    ensures forall m :: j < m <= k ==> SameAuction(worlds[j + 1], worlds[m])
  {
    assert Follows(worlds, steps, k - 1);
    if worlds[k - 1].index.rebalance.active {
      j := ProposalBehind(worlds, steps, k - 1);
      AuctionStandsOn(worlds, steps, worlds[j + 1], k - 1);
    } else {
      OnlyProposalsStart(worlds[k - 1], steps[k - 1]);
      j := k - 1;
    }
  }

  lemma AuctionStandsOn(worlds: seq<World>, steps: seq<Step>, v: World, k: nat)
    requires Run(worlds, steps) && Sound(worlds[0]) && k < |steps| && SameAuction(v, worlds[k])
    requires worlds[k].index.rebalance.active && worlds[k + 1].index.rebalance.active
    ensures SameAuction(v, worlds[k + 1])
  {
    SoundAlways(worlds, steps, k);
    assert Follows(worlds, steps, k);
    RunningAuctionStands(worlds[k], steps[k]);
    SamePlanTransitive(v.index.components, worlds[k].index.components, worlds[k + 1].index.components);
  }

  // ---------------------------------------------------------------------------------------------
  // Proposals
  // ---------------------------------------------------------------------------------------------

  /** What an accepted proposal commits the fund to. */
  ghost predicate Commits(w: World, step: Step, w': World)
    requires step.DoPropose?
  {
    var r := w'.index.rebalance;
    && r.active
    && r.proposer == step.caller == w.index.manager
    && r.proposedAt == w.clock
    && r.startTs == w.clock + w.index.params.rebalanceDelay
    && r.endTs == r.startTs + step.auction.duration
    && 0 < step.auction.duration <= MAX_AUCTION_DURATION
    && r.startPremiumBps == step.auction.startPremiumBps <= r.endPremiumBps == step.auction.endPremiumBps
    && r.maxNavLossBps == step.auction.maxNavLossBps <= BPS
    && NavE6(w'.index.components, w'.vaults).Ok?
    && r.navFloorE6 * BPS <= NavE6(w'.index.components, w'.vaults).value * (BPS - r.maxNavLossBps)
    && NavE6(w'.index.components, w'.vaults).value * (BPS - r.maxNavLossBps) < (r.navFloorE6 + 1) * BPS
  }

  lemma ProposalCommits(w: World, step: Step)
    requires step.DoPropose? && Apply(w, step).Ok?
    ensures Commits(w, step, Next(w, step))
  {
    var p, w' := step.auction, Next(w, step);
    var nav := NavE6(w'.index.components, w'.vaults);
    FloorBounds(nav.value * (BPS - p.maxNavLossBps), BPS);
    assert w'.index.rebalance.navFloorE6 == nav.value * (BPS - p.maxNavLossBps) / BPS;
  }

  /** An accepted proposal stays inside the ceiling the index itself sets. */
  lemma ProposalStaysInCeiling(w: World, step: Step, w': World)
    requires Sound(w) && step.DoPropose? && Apply(w, step) == Ok(w')
    ensures var r, ceiling: int := w'.index.rebalance, w.index.params.maxPremiumBps;
      -ceiling <= r.startPremiumBps <= r.endPremiumBps <= ceiling && r.maxNavLossBps <= ceiling
  {
  }

  /** It writes its own targets and positive prices over every slot, and leaves the units alone. */
  lemma ProposalWritesPlan(w: World, step: Step, w': World, i: nat)
    requires step.DoPropose? && Apply(w, step) == Ok(w') && i < |w.vaults|
    ensures |step.targets| == |step.prices| == |w.vaults| == |w'.vaults|
    ensures w'.index.components[i]
      == w.index.components[i].(targetUnits := step.targets[i], refPriceE9 := step.prices[i])
    ensures step.prices[i] > 0
  {
    ProposeFrame(w, step);
    assert step.prices[i] in step.prices;
  }

  /** No bid lands in the notice period or after the end: behind an accepted bid there is a proposal
      at least 300 seconds older whose window holds the bid, and whose floor, targets, prices and
      window stood in every world in between. */
  lemma BidHonoursNotice(worlds: seq<World>, steps: seq<Step>, k: nat) returns (j: nat)
    requires Run(worlds, steps) && Sound(worlds[0]) && !worlds[0].index.rebalance.active
    requires k < |steps| && steps[k].DoBid? && Apply(worlds[k], steps[k]).Ok?
    ensures j < k && steps[j].DoPropose? && Apply(worlds[j], steps[j]).Ok?
    ensures Commits(worlds[j], steps[j], worlds[j + 1])
    ensures forall m :: j < m <= k ==> SameAuction(worlds[j + 1], worlds[m])
    ensures worlds[j].clock + MIN_REBALANCE_DELAY <= worlds[k].clock
    ensures worlds[j + 1].index.rebalance.startTs <= worlds[k].clock <= worlds[j + 1].index.rebalance.endTs
  {
    BidFrame(worlds[k], steps[k]);
    j := ProposalBehind(worlds, steps, k);
    ProposalCommits(worlds[j], steps[j]);
    SoundAlways(worlds, steps, j + 1);
    var r := worlds[k].index.rebalance;
    assert SameAuction(worlds[j + 1], worlds[k]);
    PremiumStaysInBand(r.startPremiumBps, r.endPremiumBps, r.startTs, r.endTs, worlds[k].clock);
  }

  /** From one NAV to another no more than `lossBps` is lost, to one micro-dollar. */
  predicate LosesAtMost(before: nat, after: nat, lossBps: nat) {
    before * (BPS - lossBps) < (after + 1) * BPS
  }

  /** The fund is worth no less than it was in `v` less `lossBps`. */
  ghost predicate WithinLoss(v: World, w: World, lossBps: nat) {
    LosesAtMost(NavE9(v) / 1_000, NavE9(w) / 1_000, lossBps)
  }

  /** A NAV at or above a committed floor is within the declared loss of the NAV at the proposal. */
  lemma FloorHoldsLoss(v: World, step: Step, v': World, nav: nat)
    requires step.DoPropose? && Commits(v, step, v')
    requires v'.index.rebalance.navFloorE6 * 1_000 <= nav
    ensures NavE9(v') / 1_000 * (BPS - step.auction.maxNavLossBps) < (nav / 1_000 + 1) * BPS
  {
    NavE6Value(v'.index.components, v'.vaults);
    FloorOrder(NavE9(v') / 1_000 * (BPS - step.auction.maxNavLossBps), v'.index.rebalance.navFloorE6, nav);
  }

  lemma BidMeetsFloor(w: World, step: Step, w': World)
    requires step.DoBid? && Apply(w, step) == Ok(w')
    ensures w.index.rebalance.navFloorE6 * 1_000 <= NavE9(w')
  {
    var premium, buyAmount := BidFills(w, step, w');
    FloorStands(w, w');
  }

  lemma CommitmentHolds(v: World, proposal: Step, v': World, w: World, step: Step, w': World)
    requires proposal.DoPropose? && Commits(v, proposal, v') && SameAuction(v', w)
    requires step.DoBid? && Apply(w, step) == Ok(w')
    ensures WithinLoss(v', w', proposal.auction.maxNavLossBps)
  {
    BidMeetsFloor(w, step, w');
    FloorHoldsLoss(v, proposal, v', NavE9(w'));
  }

  lemma FloorOrder(kept: nat, navFloor: nat, nav: nat)
    requires kept < (navFloor + 1) * BPS && navFloor * 1_000 <= nav
    ensures kept < (nav / 1_000 + 1) * BPS
  {
    FloorAtLeast(navFloor, nav, 1_000);
  }

  /** What a proposal declared is what its auction can cost: after any accepted bid the fund is worth,
      at the proposal's prices, no less than the NAV at the proposal times one minus the declared
      loss, to one micro-dollar. */
  lemma BidHonoursCommitment(worlds: seq<World>, steps: seq<Step>, k: nat) returns (j: nat)
    requires Run(worlds, steps) && Sound(worlds[0]) && !worlds[0].index.rebalance.active
    requires k < |steps| && steps[k].DoBid? && Apply(worlds[k], steps[k]).Ok?
    ensures j < k && steps[j].DoPropose? && steps[j].auction.maxNavLossBps <= BPS
    ensures WithinLoss(worlds[j + 1], worlds[k + 1], steps[j].auction.maxNavLossBps)
  {
    j := BidHonoursNotice(worlds, steps, k);
    assert Follows(worlds, steps, k);
    CommitmentHolds(worlds[j], steps[j], worlds[j + 1], worlds[k], steps[k], worlds[k + 1]);
  }

  /** What the fund is worth now, less the declared loss, is below the committed floor plus one
      micro-dollar. */
  ghost predicate FloorCoversLoss(w: World) {
    var r := w.index.rebalance;
    r.maxNavLossBps <= BPS && LosesAtMost(NavE9(w) / 1_000, r.navFloorE6, r.maxNavLossBps)
  }

  /** The payment a bid is quoted, the NAV it will leave, and the comparison of that NAV with the one
      before: a test on the record and the vaults before the bid. */
  ghost predicate QuoteKeepsTo(w: World, step: Step, lossBps: nat)
    requires step.DoBid?
  {
    && BidPremium(w).Ok? && step.sell < |w.vaults| && step.buy < |w.vaults| && step.sellAmount <= w.vaults[step.sell]
    && var quote := BidLegs(w, step.sell, step.buy, step.sellAmount, step.maxBuyAmount, BidPremium(w).value);
       && quote.Ok?
       && 0 <= NavAfter(w, step.sell, step.buy, step.sellAmount, quote.value)
       && LosesAtMost(NavE9(w) / 1_000, NavAfter(w, step.sell, step.buy, step.sellAmount, quote.value) / 1_000, lossBps)
  }

  /** An accepted bid leaves exactly the NAV that can be computed before it. */
  lemma BidLeavesQuotedNav(w: World, step: Step, w': World)
    requires step.DoBid? && Apply(w, step) == Ok(w')
    ensures step.sell < |w.vaults| && step.buy < |w.vaults| && step.sellAmount <= w.vaults[step.sell]
    ensures BidPremium(w).Ok?
    ensures var quote := BidLegs(w, step.sell, step.buy, step.sellAmount, step.maxBuyAmount, BidPremium(w).value);
      quote.Ok? && NavE9(w') == NavAfter(w, step.sell, step.buy, step.sellAmount, quote.value)
  {
    var premium, buyAmount := BidIsStaged(w, step, w');
    FilledLeavesNav(w, step.bidder, step.to, step.sell, step.buy, step.sellAmount, buyAmount, w');
  }

  lemma FilledLeavesNav(w: World, bidder: Key, to: Key, s: nat, b: nat, sellAmount: uint64, buyAmount: uint64,
                        w': World)
    requires s < |w.vaults| && b < |w.vaults| && s != b && w.supply > 0
    requires FillBid(w, bidder, to, s, b, sellAmount, buyAmount) == Ok(w')
    ensures sellAmount <= w.vaults[s] && NavE9(w') == NavAfter(w, s, b, sellAmount, buyAmount)
  {
    FillBidEffect(w, bidder, to, s, b, sellAmount, buyAmount, w');
    InStepKeepsPlan(w.index.components, w');
    TradedNav(w, w', s, b, sellAmount, buyAmount);
  }

  /** An accepted bid costs at most a given share of what the fund was worth just before it, at the
      proposal's prices, exactly when its quote says so beforehand. */
  lemma BidHonoursLossExactly(w: World, step: Step, w': World, lossBps: nat)
    requires step.DoBid? && Apply(w, step) == Ok(w')
    ensures WithinLoss(w, w', lossBps) <==> QuoteKeepsTo(w, step, lossBps)
  {
    BidLeavesQuotedNav(w, step, w');
  }

  /** Where the floor covers the declared loss, every accepted bid keeps to it. */
  lemma BidHonoursLossOfNow(w: World, step: Step, w': World)
    requires step.DoBid? && Apply(w, step) == Ok(w') && FloorCoversLoss(w)
    ensures WithinLoss(w, w', w.index.rebalance.maxNavLossBps)
    ensures QuoteKeepsTo(w, step, w.index.rebalance.maxNavLossBps)
  {
    var lossBps := w.index.rebalance.maxNavLossBps;
    BidMeetsFloor(w, step, w');
    AboveFloorLosesAtMost(NavE9(w) / 1_000, w.index.rebalance.navFloorE6, NavE9(w'), lossBps);
    BidHonoursLossExactly(w, step, w', lossBps);
  }

  lemma AboveFloorLosesAtMost(before: nat, navFloor: nat, nav: nat, lossBps: nat)
    requires lossBps <= BPS && LosesAtMost(before, navFloor, lossBps) && navFloor * 1_000 <= nav
    ensures LosesAtMost(before, nav / 1_000, lossBps)
  {
    FloorOrder(before * (BPS - lossBps), navFloor, nav);
  }

  /** The floor covers the declared loss for as long as NAV has not risen above what it was at the
      proposal. */
  lemma BidHonoursLossUnlessNavRose(worlds: seq<World>, steps: seq<Step>, k: nat) returns (j: nat)
    requires Run(worlds, steps) && Sound(worlds[0]) && !worlds[0].index.rebalance.active
    requires k < |steps| && steps[k].DoBid? && Apply(worlds[k], steps[k]).Ok?
    ensures j < k && steps[j].DoPropose? && Apply(worlds[j], steps[j]).Ok?
    ensures NavE9(worlds[k]) <= NavE9(worlds[j + 1]) ==>
      FloorCoversLoss(worlds[k]) && WithinLoss(worlds[k], worlds[k + 1], worlds[k].index.rebalance.maxNavLossBps)
  {
    j := BidHonoursNotice(worlds, steps, k);
    assert Follows(worlds, steps, k);
    if NavE9(worlds[k]) <= NavE9(worlds[j + 1]) {
      assert SameAuction(worlds[j + 1], worlds[k]);
      ProposalCoversLoss(worlds[j], steps[j], worlds[j + 1], worlds[k]);
      BidHonoursLossOfNow(worlds[k], steps[k], worlds[k + 1]);
    }
  }

  lemma ProposalCoversLoss(v: World, proposal: Step, v': World, w: World)
    requires proposal.DoPropose? && Commits(v, proposal, v') && SameAuction(v', w) && NavE9(w) <= NavE9(v')
    ensures FloorCoversLoss(w)
  {
    NavE6Value(v'.index.components, v'.vaults);
    FloorMonotone(NavE9(w), NavE9(v'), 1_000);
    MulMonotone(NavE9(w) / 1_000, NavE9(v') / 1_000, BPS - w.index.rebalance.maxNavLossBps);
  }

  /** A running auction can be closed by its manager at any time, by anyone once it has expired, and
      by nobody else; only a unit count that does not fit its word stands in the way. */
  lemma ClosingSucceedsExactly(w: World, caller: Key)
    requires Sound(w)
    ensures EndRebalance(w, caller).Ok? <==>
      && w.index.rebalance.active
      && (caller == w.index.manager || w.index.rebalance.endTs < w.clock)
      && forall i :: 0 <= i < |w.vaults| ==> DerivedUnits(w.index.components[i].units, w.vaults[i], w.supply) <= U64_MAX
  {
    SyncUnitsEffect(w);
  }

  // ---------------------------------------------------------------------------------------------
  // The table and the vaults
  // ---------------------------------------------------------------------------------------------

  /** From the sealing on, the table lists the same tokens in the same order, without duplicates. */
  lemma {:induction false} TableIsFrozen(worlds: seq<World>, steps: seq<Step>, j: nat, k: nat)
    requires Run(worlds, steps) && Sound(worlds[0]) && j <= k <= |steps| && worlds[j].index.status.Sealed()
    ensures worlds[k].index.status.Sealed()
    ensures SameTokens(worlds[k].index.components, worlds[j].index.components)
    ensures Distinct(worlds[k].index.components)
  {
    SoundAlways(worlds, steps, k);
    if j < k {
      TableIsFrozen(worlds, steps, j, k - 1);
      assert Follows(worlds, steps, k - 1);
      TableFrame(worlds[k - 1], steps[k - 1]);
      StatusFrame(worlds[k - 1], steps[k - 1]);
    }
  }

  /** A vault falls only in a redemption, by no more than the exact share of the index tokens it retires,
      or in a bid that sells from it and meets the NAV floor; and that bid pays something exactly when
      what it takes is worth a nanodollar or more. */
  lemma VaultsFallOnlyWhenTraded(w: World, step: Step, i: nat)
    requires Sound(w) && w.index.status.Sealed() && i < |w.vaults|
    requires |Next(w, step).vaults| == |w.vaults| && Next(w, step).vaults[i] < w.vaults[i]
    ensures Apply(w, step).Ok?
    ensures step.DoRedeem? || step.DoBid?
    ensures step.DoRedeem? ==> RedeemTakesItsShare(w, Next(w, step), i)
    ensures step.DoBid? ==>
      && i == step.sell as int
      && w.vaults[i] as int - Next(w, step).vaults[i] == step.sellAmount
      && w.index.rebalance.navFloorE6 * 1_000 <= NavE9(Next(w, step))
      && (Paid(w, step) > 0
        <==> step.sellAmount * w.index.components[i].refPriceE9 >= Pow10(w.index.components[i].decimals))
  {
    VaultFrame(w, step, i);
    var w' := Next(w, step);
    if step.DoBid? {
      var premium, buyAmount := BidFills(w, step, w');
      BidMeetsFloor(w, step, w');
      BidPaysExactly(w, step, w');
    } else {
      RedeemFallsByItsShare(w, step.user, step.to, step.amount, step.minOut, w', i);
    }
  }

  /** Vault `i` fell by at most the share of it that the retired supply was of the whole supply, the
      fee owed being minted first. */
  ghost predicate RedeemTakesItsShare(w: World, w': World, i: nat)
    requires i < |w.vaults| && |w'.vaults| == |w.vaults|
  {
    && w'.supply <= PricedSupply(w)
    && (w.vaults[i] as int - w'.vaults[i]) * PricedSupply(w) <= w.vaults[i] * (PricedSupply(w) - w'.supply)
  }

  lemma RedeemFallsByItsShare(w: World, user: Key, to: Key, amount: uint64, minOut: seq<uint64>, w': World, i: nat)
    requires Redeem(w, user, to, amount, minOut) == Ok(w') && i < |w.vaults|
    ensures |w'.vaults| == |w.vaults| && RedeemTakesItsShare(w, w', i)
  {
    RedeemMoves(w, user, to, amount, minOut, w', i);
    ExitKeepsExactBacking(w.index.components[i].units, w.vaults[i], PricedSupply(w), Net(w, amount));
  }

  /** The parameters of every created index stay inside the hard caps, whoever governs it. */
  lemma ParamsStayInCaps(worlds: seq<World>, steps: seq<Step>, k: nat)
    requires Run(worlds, steps) && Genesis(worlds[0]) && k <= |steps| && !worlds[k].index.status.Absent?
    ensures var p, r := worlds[k].index.params, worlds[k].index.rebalance;
      && p.streamingFeeBps <= 500 && p.issueFeeBps <= 100 && p.redeemFeeBps <= 100
      && p.maxPremiumBps <= 1_000 && p.rebalanceDelay >= 300
      && (r.active ==>
            && -1_000 <= r.startPremiumBps <= r.endPremiumBps <= 1_000
            && r.maxNavLossBps <= 1_000
            && 300 <= r.startTs - r.proposedAt
            && 0 < r.endTs - r.startTs <= 604_800)
  {
    SoundAlways(worlds, steps, k);
  }
}
