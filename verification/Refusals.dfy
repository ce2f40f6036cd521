/** Why a step is refused: the error it fails with says what is so. */
module Refusals {
  import opened Words
  import opened Division
  import opened FixedPoint
  import opened Kernel
  import opened Sums
  import opened Shares
  import opened Accounts
  import opened Tokens
  import opened Handlers
  import opened Effects
  import opened Runs
  import opened Invariant
  import opened Holders
  import opened Auctions
  import opened Convergence
  import opened Entries
  import opened Exits
  import opened Bids
  import opened Proposals
  import opened Contract

  // ---------------------------------------------------------------------------------------------
  // What an error says
  // ---------------------------------------------------------------------------------------------

  /** The fee due overflows, or rate and time take the whole fund. */
  predicate FeeOverflows(w: World) {
    w.supply > 0 && (TimeDue(w) >= FEE_DENOMINATOR || FeeDue(w) > U64_MAX)
  }

  ghost predicate SomePricedUnitsOverflow(w: World) {
    exists i :: 0 <= i < |w.vaults| && PricedUnits(w, i) > U64_MAX
  }

  predicate CapsSay(p: Params, e: Error) {
    match e
    case FeeTooHigh => p.streamingFeeBps > 500 || p.issueFeeBps > 100 || p.redeemFeeBps > 100 || p.maxPremiumBps > 1_000
    case TimelockNotMet => p.rebalanceDelay < 300
    case _ => false
  }

  ghost predicate AdditionSays(w: World, caller: Key, mint: Key, units: uint64, e: Error) {
    match e
    case ZeroAmount => units == 0
    case InvalidAccountOwner => w.index.status.Absent?
    case NotManager => caller != w.index.manager
    case AlreadySealed => w.index.status.Sealed()
    case TooManyComponents => |w.vaults| >= 16
    case DuplicateComponent => exists i :: 0 <= i < |w.vaults| && w.index.components[i].mint == mint
    case _ => false
  }

  /** What refuses the charge of one slot. */
  ghost predicate CostSays(w: World, user: Key, gross: nat, bound: int, i: nat, e: Error)
    requires i < |w.vaults|
  {
    match e
    case MathOverflow => Cost(w, gross, i) > U64_MAX
    case SlippageExceeded => Cost(w, gross, i) > bound
    case TokenInsufficientFunds => Cost(w, gross, i) > Balance(w.wallets, ComponentAccount(w, user, i))
    case TokenOverflow => w.vaults[i] + Cost(w, gross, i) > U64_MAX
    case _ => false
  }

  ghost predicate IssueSays(w: World, user: Key, amount: uint64, maxIn: seq<uint64>, e: Error) {
    var gross := Gross(w, amount);
    || (e == ZeroAmount && amount == 0)
    || (e == InvalidAccountOwner && w.index.status.Absent?)
    || (e == Error.Paused && w.index.status.Paused?)
    || (e == NotSealed && w.index.status.Bootstrapping?)
    || (e == ArityMismatch && |maxIn| != |w.vaults|)
    || (e == MathOverflow && (FeeOverflows(w) || SomePricedUnitsOverflow(w) || gross > U64_MAX))
    || (e == MathOverflow && exists i :: 0 <= i < |w.vaults| && UnitsAfterEntry(w, gross, i) > U64_MAX)
    || (e == TokenOverflow && w.supply + FeeDue(w) + gross > U64_MAX)
    || (|maxIn| == |w.vaults| && exists i :: 0 <= i < |w.vaults| && CostSays(w, user, gross, maxIn[i], i, e))
  }

  ghost predicate RedeemSays(w: World, user: Key, to: Key, amount: uint64, minOut: seq<uint64>, e: Error) {
    var net := Net(w, amount);
    || (e == ZeroAmount && amount == 0)
    || (e == InvalidAccountOwner && w.index.status.Absent?)
    || (e == NotSealed && w.index.status.Bootstrapping?)
    || (e == ArityMismatch && |minOut| != |w.vaults|)
    || (e == SupplyTooSmall && amount > PricedSupply(w))
    || (e == MathOverflow && (FeeOverflows(w) || SomePricedUnitsOverflow(w)))
    || (e == TokenOverflow && w.supply + FeeDue(w) > U64_MAX)
    || (e == TokenInsufficientFunds && amount > HeldAfterFee(w, user))
    || (0 <= net && |minOut| == |w.vaults|
        && (|| (e == SlippageExceeded && !ProceedsMeet(w, minOut, net))
            || (e == TokenOverflow && !RoomToReceive(w, to, net))
            || (e == MathOverflow && !UnitsFit(w, net))))
  }

  ghost predicate AccrualSays(w: World, e: Error) {
    match e
    case InvalidAccountOwner => w.index.status.Absent?
    case NotSealed => w.index.status.Bootstrapping?
    case MathOverflow => FeeOverflows(w) || SomePricedUnitsOverflow(w)
    case TokenOverflow => w.supply + FeeDue(w) > U64_MAX
    case _ => false
  }

  ghost predicate ProposalSays(w: World, caller: Key, targets: seq<uint64>, prices: seq<uint64>, p: AuctionParams,
                               e: Error) {
    match e
    case InvalidAccountOwner => w.index.status.Absent?
    case NotManager => caller != w.index.manager
    case Paused => w.index.status.Paused?
    case NotSealed => w.index.status.Bootstrapping?
    case RebalanceActive => w.index.rebalance.active
    case ArityMismatch => |targets| != |w.vaults| || |prices| != |w.vaults|
    case InvalidPremium => !(0 < p.duration <= MAX_AUCTION_DURATION) || !WithinCeiling(p, w.index.params.maxPremiumBps)
    case InvalidPrice => 0 in prices
    case MathOverflow =>
      || w.clock + w.index.params.rebalanceDelay + p.duration > I64_MAX
      || (|targets| == |prices| == |w.vaults| && !NavFits(Proposed(w.index.components, targets, prices), w.vaults))
    case _ => false
  }

  /** What refuses the sizes of a bid. */
  ghost predicate LegsSay(w: World, s: nat, b: nat, sellAmount: nat, maxBuyAmount: nat, premium: int, e: Error)
    requires s < |w.vaults| && b < |w.vaults|
  {
    var sell, buy := w.index.components[s], w.index.components[b];
    var fits := PriceFits(sell, buy, sellAmount, premium);
    match e
    case MathOverflow => Target(w, s) > U64_MAX || Cap(w, b) > U64_MAX || !fits
    case InvalidPrice => buy.refPriceE9 == 0
    case SellLegAtTarget => w.vaults[s] <= Target(w, s)
    case SellAmountExceedsExcess => w.vaults[s] < Target(w, s) + sellAmount
    case BuyLegAtCap => Cap(w, b) <= w.vaults[b]
    case SlippageExceeded => fits && PriceOf(sell, buy, sellAmount, premium) > maxBuyAmount
    case BuyAmountExceedsCap => fits && w.vaults[b] + PriceOf(sell, buy, sellAmount, premium) > Cap(w, b)
    case _ => false
  }

  /** What refuses the settlement of a bid. */
  ghost predicate FillSays(w: World, bidder: Key, to: Key, s: nat, b: nat, sold: uint64, paid: uint64, e: Error)
    requires s < |w.vaults| && b < |w.vaults| && sold <= w.vaults[s] && w.vaults[b] + paid <= U64_MAX
  {
    var cs, vaults := w.index.components, FilledVaults(w, s, b, sold, paid);
    match e
    case TokenInsufficientFunds => paid > Balance(w.wallets, ComponentAccount(w, bidder, b))
    case TokenOverflow => Balance(w.wallets, ComponentAccount(w, to, s)) + sold > U64_MAX
    case NavFloorBreached => Sum(Values(cs, vaults)) / 1_000 < w.index.rebalance.navFloorE6
    case MathOverflow =>
      || !NavFits(cs, vaults)
      || exists i :: 0 <= i < |vaults| && DerivedUnits(cs[i].units, vaults[i], w.supply) > U64_MAX
    case _ => false
  }

  ghost predicate BidSays(w: World, bidder: Key, to: Key, s: nat, b: nat, sellAmount: uint64, maxBuyAmount: uint64,
                          e: Error) {
    var r := w.index.rebalance;
    || (e == SameComponent && s == b)
    || (e == ZeroAmount && sellAmount == 0)
    || (e == InvalidAccountOwner && w.index.status.Absent?)
    || (e == Error.Paused && w.index.status.Paused?)
    || (e == NotSealed && w.index.status.Bootstrapping?)
    || (e == NoRebalance && !r.active)
    || (e == AuctionClosed && !(r.startTs <= w.clock <= r.endTs))
    || (e == InvalidPremium && PremiumNow(w) > w.index.params.maxPremiumBps)
    || (e == UnknownComponent && (s >= |w.vaults| || b >= |w.vaults|))
    || (e == SupplyTooSmall && w.supply == 0)
    || (s < |w.vaults| && b < |w.vaults| && LegsSay(w, s, b, sellAmount, maxBuyAmount, PremiumNow(w), e))
    || (s < |w.vaults| && b < |w.vaults| && LegsMeet(w, s, b, sellAmount, maxBuyAmount, PremiumNow(w))
        && FillSays(w, bidder, to, s, b, sellAmount, BidPrice(w, s, b, sellAmount), e))
  }

  ghost predicate ClosingSays(w: World, caller: Key, e: Error) {
    match e
    case InvalidAccountOwner => w.index.status.Absent?
    case NoRebalance => !w.index.rebalance.active
    case NotManager => caller != w.index.manager && w.clock <= w.index.rebalance.endTs
    case MathOverflow => exists i :: 0 <= i < |w.vaults| && HeldUnits(w, i) > U64_MAX
    case _ => false
  }

  /** What an error says of the world and the step it answers; false where the step has no business
      failing with it. */
  ghost predicate Says(w: World, step: Step, e: Error) {
    var idx := w.index;
    match step
    case DoInit(_, _, _, params) =>
      || CapsSay(params, e)
      || (e == AccountAlreadyInitialized && !idx.status.Absent?)
      || (e == InvalidIndexMint && w.supply != 0)
    case DoAddComponent(caller, mint, _, units) => AdditionSays(w, caller, mint, units, e)
    case DoSeal(caller) =>
      || (e == InvalidAccountOwner && idx.status.Absent?)
      || (e == NotManager && caller != idx.manager)
      || (e == AlreadySealed && idx.status.Sealed())
      || (e == UnknownComponent && w.vaults == [])
    case DoIssue(user, _, amount, maxIn) => IssueSays(w, user, amount, maxIn, e)
    case DoRedeem(user, to, amount, minOut) => RedeemSays(w, user, to, amount, minOut, e)
    case DoAccrue => AccrualSays(w, e)
    case DoPropose(caller, targets, prices, auction) => ProposalSays(w, caller, targets, prices, auction, e)
    case DoBid(bidder, to, sell, buy, sellAmount, maxBuyAmount) =>
      BidSays(w, bidder, to, sell, buy, sellAmount, maxBuyAmount, e)
    case DoEnd(caller) => ClosingSays(w, caller, e)
    case DoSetParams(caller, params) =>
      || CapsSay(params, e)
      || (e == InvalidAccountOwner && idx.status.Absent?)
      || (e == NotGovernor && caller != idx.governor)
    case DoSetAuthority(caller, role, _) =>
      || (e == InvalidAccountOwner && idx.status.Absent?)
      || (e == NotGovernor && caller != idx.governor)
      || (e == InvalidInstructionData && role > 2)
    case DoSetPaused(caller, paused) =>
      || (e == InvalidAccountOwner && idx.status.Absent?)
      || (e == NotManager && paused && caller != idx.governor && caller != idx.manager)
      || (e == NotGovernor && !paused && caller != idx.governor)
      || (e == NotSealed && idx.status.Bootstrapping?)
    case _ => false
  }

  // ---------------------------------------------------------------------------------------------
  // Billing
  // ---------------------------------------------------------------------------------------------

  lemma AccrualRefused(w: World)
    requires w.supply == Total(w.wallets, IndexMint) && Accrue(w).Err?
    ensures var e := Accrue(w).error;
      (e == MathOverflow && FeeOverflows(w)) || (e == TokenOverflow && w.supply + FeeDue(w) > U64_MAX)
  {
    FeeOwedExactly(w);
    StreamingFeeFailsExactly(w.supply, w.index.params.streamingFeeBps,
                             SaturatingSub(w.clock, w.index.lastFeeAccrual));
    BalanceWithinTotal(w.wallets, Account(w.index.feeRecipient, IndexMint));
  }

  lemma SettlingRefused(w: World)
    requires w.supply == Total(w.wallets, IndexMint) && Settled(w).Err?
    ensures var e := Settled(w).error;
      || (e == MathOverflow && (FeeOverflows(w) || SomePricedUnitsOverflow(w)))
      || (e == TokenOverflow && w.supply + FeeDue(w) > U64_MAX)
  {
    SettlingSucceedsExactly(w);
    if Accrue(w).Err? {
      AccrualRefused(w);
    } else {
      SyncUnitsEffect(Accrue(w).value);
      AccrualSucceedsExactly(w);
    }
  }

  lemma AccruingRefused(w: World)
    requires Sound(w) && AccrueFees(w).Err?
    ensures AccrualSays(w, AccrueFees(w).error)
  {
    if w.index.status.Sealed() {
      SettlingRefused(w);
    }
  }

  // ---------------------------------------------------------------------------------------------
  // Entering
  // ---------------------------------------------------------------------------------------------

  /** The same at the stored units, in a settled world. */
  ghost predicate ChargeSays(w: World, user: Key, gross: uint64, bound: uint64, i: nat, e: Error)
    requires i < |w.vaults|
  {
    match e
    case MathOverflow => Charge(w, gross, i) > U64_MAX
    case SlippageExceeded => Charge(w, gross, i) > bound
    case TokenInsufficientFunds => Charge(w, gross, i) > Balance(w.wallets, ComponentAccount(w, user, i))
    case TokenOverflow => w.vaults[i] + Charge(w, gross, i) > U64_MAX
    case _ => false
  }

  /** A delivery stops at a slot that its error tells the truth about. */
  lemma {:induction false} DeliveryRefused(w: World, user: Key, maxIn: seq<uint64>, gross: uint64, i: nat)
    returns (j: nat)
    requires |maxIn| == |w.vaults| && i <= |w.vaults| && Distinct(w.index.components)
    requires DeliverFrom(w, user, maxIn, gross, i).Err?
    ensures i <= j < |w.vaults| && ChargeSays(w, user, gross, maxIn[j], j, DeliverFrom(w, user, maxIn, gross, i).error)
    decreases |w.vaults| - i
  {
    UnitsInValue(w.index.components[i].units, gross);
    if Charge(w, gross, i) > U64_MAX || Charge(w, gross, i) > maxIn[i] {
      j := i;
    } else {
      var next := TransferFromUser(w, user, i, Charge(w, gross, i));
      if next.Err? {
        j := i;
      } else {
        j := DeliveryRefused(next.value, user, maxIn, gross, i + 1);
        assert w.index.components[i].mint != w.index.components[j].mint;
        assert ComponentAccount(w, user, j) != ComponentAccount(w, user, i);
      }
    }
  }

  lemma MintsRefused(w: World, to: Key, amount: uint64, fee: uint64)
    requires Balance(w.wallets, Account(to, IndexMint)) <= w.supply
    requires Balance(w.wallets, Account(w.index.feeRecipient, IndexMint)) <= w.supply
    ensures var minted := MintIndexTokens(w, to, amount);
      && (minted.Err? ==> minted.error == TokenOverflow && w.supply + amount + fee > U64_MAX)
      && (minted.Ok? && MintIndexTokens(minted.value, w.index.feeRecipient, fee).Err? ==>
            && MintIndexTokens(minted.value, w.index.feeRecipient, fee).error == TokenOverflow
            && w.supply + amount + fee > U64_MAX)
  {
  }

  /** What refuses an issue in a settled world. */
  ghost predicate ChargedSays(w: World, user: Key, gross: uint64, maxIn: seq<uint64>, e: Error)
    requires |maxIn| == |w.vaults|
  {
    || (e == TokenOverflow && w.supply + gross > U64_MAX)
    || (e == MathOverflow && !GrownFits(w, gross))
    || exists i :: 0 <= i < |w.vaults| && ChargeSays(w, user, gross, maxIn[i], i, e)
  }

  lemma ChargedIssueRefused(w: World, user: Key, to: Key, amount: uint64, fee: uint64, gross: uint64,
                            maxIn: seq<uint64>)
    requires |maxIn| == |w.vaults| && Distinct(w.index.components)
    requires w.supply == Total(w.wallets, IndexMint) && amount + fee == gross
    requires IssueCharged(w, user, to, amount, fee, maxIn).Err?
    ensures ChargedSays(w, user, gross, maxIn, IssueCharged(w, user, to, amount, fee, maxIn).error)
  {
    if DeliverFrom(w, user, maxIn, gross, 0).Err? {
      var j := DeliveryRefused(w, user, maxIn, gross, 0);
    } else {
      var delivered := DeliverFrom(w, user, maxIn, gross, 0).value;
      DeliveredWorld(w, user, maxIn, gross, delivered, to);
      DeliveredWorld(w, user, maxIn, gross, delivered, w.index.feeRecipient);
      DeliveredIssueRefused(w, delivered, to, amount, fee, gross);
    }
  }

  lemma DeliveredIssueRefused(w: World, delivered: World, to: Key, amount: uint64, fee: uint64, gross: uint64)
    requires amount + fee == gross && |delivered.vaults| == |w.vaults|
    requires delivered.supply == w.supply && delivered.index == w.index
    requires forall i :: 0 <= i < |w.vaults| ==> delivered.vaults[i] == w.vaults[i] + Charge(w, gross, i)
    requires Balance(delivered.wallets, Account(to, IndexMint)) <= w.supply
    requires Balance(delivered.wallets, Account(w.index.feeRecipient, IndexMint)) <= w.supply
    ensures var minted := MintIndexTokens(delivered, to, amount);
      if minted.Err? then minted.error == TokenOverflow && w.supply + gross > U64_MAX
      else
        var charged := MintIndexTokens(minted.value, w.index.feeRecipient, fee);
        if charged.Err? then charged.error == TokenOverflow && w.supply + gross > U64_MAX
        else SyncUnits(charged.value).Err? ==> SyncUnits(charged.value).error == MathOverflow && !GrownFits(w, gross)
  {
    MintsRefused(delivered, to, amount, fee);
    var minted := MintIndexTokens(delivered, to, amount);
    if minted.Ok? {
      var charged := MintIndexTokens(minted.value, w.index.feeRecipient, fee);
      if charged.Ok? {
        ClosingSync(w, charged.value, gross);
        SyncUnitsEffect(charged.value);
      }
    }
  }

  lemma SettledChargeSays(w: World, settled: World, user: Key, gross: uint64, bound: uint64, i: nat, e: Error)
    requires Settled(w) == Ok(settled) && i < |w.vaults| == |settled.vaults|
    ensures ChargeSays(settled, user, gross, bound, i, e) ==> CostSays(w, user, gross, bound, i, e)
  {
    SettledCharge(w, settled, user, gross, i);
  }

  lemma SettledIssueRefused(w: World, settled: World, user: Key, amount: uint64, gross: uint64, maxIn: seq<uint64>,
                            e: Error)
    requires Sound(w) && |maxIn| == |w.vaults| == |settled.vaults| && Settled(w) == Ok(settled)
    requires settled.supply == w.supply + FeeDue(w) && gross == Gross(w, amount)
    requires ChargedSays(settled, user, gross, maxIn, e)
    ensures IssueSays(w, user, amount, maxIn, e)
  {
    if exists i :: 0 <= i < |w.vaults| && ChargeSays(settled, user, gross, maxIn[i], i, e) {
      var i :| 0 <= i < |w.vaults| && ChargeSays(settled, user, gross, maxIn[i], i, e);
      SettledChargeSays(w, settled, user, gross, maxIn[i], i, e);
    } else if !GrownFits(settled, gross) {
      SettledGrowth(w, settled, user, gross);
      SettlingSucceedsExactly(w);
    }
  }

  lemma IssueRefused(w: World, user: Key, to: Key, amount: uint64, maxIn: seq<uint64>)
    requires Sound(w) && Issue(w, user, to, amount, maxIn).Err?
    ensures IssueSays(w, user, amount, maxIn, Issue(w, user, to, amount, maxIn).error)
  {
    if 0 < amount && w.index.status.Live? && |maxIn| == |w.vaults| {
      if Settled(w).Err? {
        SettlingRefused(w);
      } else {
        LiveIssueRefused(w, Settled(w).value, user, to, amount, maxIn);
      }
    }
  }

  lemma LiveIssueRefused(w: World, settled: World, user: Key, to: Key, amount: uint64, maxIn: seq<uint64>)
    requires Sound(w) && 0 < amount && w.index.status.Live? && |maxIn| == |w.vaults| && Settled(w) == Ok(settled)
    requires Issue(w, user, to, amount, maxIn).Err?
    ensures IssueSays(w, user, amount, maxIn, Issue(w, user, to, amount, maxIn).error)
  {
    FeeWithin(amount, w.index.params.issueFeeBps);
    var fee := FlatFee(amount, w.index.params.issueFeeBps).value;
    SettledWorld(w, settled, user);
    IssueIsStaged(w, settled, user, to, amount, fee, maxIn);
    if amount + fee <= U64_MAX {
      PricedIssueRefused(w, settled, user, to, amount, fee, Gross(w, amount), maxIn);
    }
  }

  lemma PricedIssueRefused(w: World, settled: World, user: Key, to: Key, amount: uint64, fee: uint64, gross: uint64,
                           maxIn: seq<uint64>)
    requires Sound(w) && |maxIn| == |w.vaults| == |settled.vaults| && Settled(w) == Ok(settled)
    requires amount + fee == gross == Gross(w, amount)
    requires IssueCharged(settled, user, to, amount, fee, maxIn).Err?
    ensures IssueSays(w, user, amount, maxIn, IssueCharged(settled, user, to, amount, fee, maxIn).error)
  {
    SettledWorld(w, settled, user);
    SettlingSucceedsExactly(w);
    AccrualSucceedsExactly(w);
    ChargedIssueRefused(settled, user, to, amount, fee, gross, maxIn);
    SettledIssueRefused(w, settled, user, amount, gross, maxIn,
                        IssueCharged(settled, user, to, amount, fee, maxIn).error);
  }

  // ---------------------------------------------------------------------------------------------
  // Auctions
  // ---------------------------------------------------------------------------------------------

  lemma ProposalRefused(w: World, caller: Key, targets: seq<uint64>, prices: seq<uint64>, p: AuctionParams)
    requires Sound(w) && ProposeRebalance(w, caller, targets, prices, p).Err?
    ensures ProposalSays(w, caller, targets, prices, p, ProposeRebalance(w, caller, targets, prices, p).error)
  {
    if ProposalGuards(w, caller, targets, prices, p) {
      RetargetedIsProposed(w.index.components, targets, prices);
      NavE6Exactly(Proposed(w.index.components, targets, prices), w.vaults);
      GuardedProposal(w, caller, targets, prices, p);
    }
  }

  lemma LegsRefused(w: World, s: nat, b: nat, sellAmount: uint64, maxBuyAmount: uint64, premium: int32)
    requires s < |w.vaults| && b < |w.vaults| && sellAmount > 0
    requires BidLegs(w, s, b, sellAmount, maxBuyAmount, premium).Err?
    ensures LegsSay(w, s, b, sellAmount, maxBuyAmount, premium,
                    BidLegs(w, s, b, sellAmount, maxBuyAmount, premium).error)
  {
    FloorBounds(Target(w, b) * w.index.params.maxPremiumBps, BPS);
    TargetFits(w, s);
    TargetFits(w, b);
    if Target(w, b) <= U64_MAX {
      CapFits(w, b);
    }
    var payment := BidPayment(w.index.components[s], w.index.components[b], sellAmount, premium);
    BidPaymentExactly(w.index.components[s], w.index.components[b], sellAmount, premium);
    if payment.Err? {
      PriceRefused(w.index.components[s], w.index.components[b], sellAmount, premium);
    }
    LegsStop(w, s, b, sellAmount, maxBuyAmount, premium, Target(w, s), Target(w, b), Cap(w, b));
  }

  /** Where the leg guards stop, with targets and cap as numbers. */
  lemma LegsStop(w: World, s: nat, b: nat, sellAmount: uint64, maxBuyAmount: uint64, premium: int32,
                 sellTarget: nat, buyTarget: nat, cap: nat)
    requires s < |w.vaults| && b < |w.vaults| && buyTarget <= cap
    requires TargetBalance(w.index.components[s].targetUnits, w.supply)
          == if sellTarget > U64_MAX then Err(MathOverflow) else Ok(sellTarget)
    requires TargetBalance(w.index.components[b].targetUnits, w.supply)
          == if buyTarget > U64_MAX then Err(MathOverflow) else Ok(buyTarget)
    requires buyTarget <= U64_MAX ==>
      BuyCap(buyTarget, w.index.params.maxPremiumBps) == if cap > U64_MAX then Err(MathOverflow) else Ok(cap)
    requires BidLegs(w, s, b, sellAmount, maxBuyAmount, premium).Err?
    ensures var e := BidLegs(w, s, b, sellAmount, maxBuyAmount, premium).error;
      var payment := BidPayment(w.index.components[s], w.index.components[b], sellAmount, premium);
      || (e == MathOverflow && (sellTarget > U64_MAX || cap > U64_MAX))
      || (e == SellLegAtTarget && w.vaults[s] <= sellTarget)
      || (e == SellAmountExceedsExcess && w.vaults[s] < sellTarget + sellAmount)
      || (e == BuyLegAtCap && cap <= w.vaults[b])
      || (payment.Err? && e == payment.error)
      || (payment.Ok? && e == SlippageExceeded && payment.value > maxBuyAmount)
      || (payment.Ok? && e == BuyAmountExceedsCap && w.vaults[b] + payment.value > cap)
  {
  }

  lemma PriceRefused(sell: Component, buy: Component, sellAmount: uint64, premium: int32)
    requires BidPayment(sell, buy, sellAmount, premium).Err?
    ensures !PriceFits(sell, buy, sellAmount, premium)
    ensures var e := BidPayment(sell, buy, sellAmount, premium).error;
      e == MathOverflow || (e == InvalidPrice && buy.refPriceE9 == 0)
  {
    BidPaymentExactly(sell, buy, sellAmount, premium);
  }

  lemma FillRefused(w: World, bidder: Key, to: Key, s: nat, b: nat, sold: uint64, paid: uint64)
    requires s < |w.vaults| && b < |w.vaults| && s != b && Distinct(w.index.components)
    requires sold <= w.vaults[s] && w.vaults[b] + paid <= U64_MAX
    requires FillBid(w, bidder, to, s, b, sold, paid).Err?
    ensures FillSays(w, bidder, to, s, b, sold, paid, FillBid(w, bidder, to, s, b, sold, paid).error)
  {
    TransfersSucceedExactly(w, bidder, to, s, b, sold, paid);
    var delivered := TransferFromUser(w, bidder, b, paid);
    if delivered.Ok? && TransferFromVault(delivered.value, s, to, sold).Ok? {
      var filled := TransferFromVault(delivered.value, s, to, sold).value;
      TransferredWorld(w, bidder, to, s, b, sold, paid, delivered.value, filled);
      NavE6Exactly(w.index.components, filled.vaults);
      SyncUnitsEffect(filled);
    }
  }

  lemma BidRefused(w: World, bidder: Key, to: Key, s: uint8, b: uint8, sellAmount: uint64, maxBuyAmount: uint64)
    requires Sound(w) && Bid(w, bidder, to, s, b, sellAmount, maxBuyAmount).Err?
    ensures BidSays(w, bidder, to, s, b, sellAmount, maxBuyAmount,
                    Bid(w, bidder, to, s, b, sellAmount, maxBuyAmount).error)
  {
    PricedAtPremiumNow(w);
    if s != b && 0 < sellAmount {
      if BidPremium(w).Err? {
        PremiumRefused(w);
      } else if s < |w.vaults| && b < |w.vaults| && w.supply > 0 {
        LegGuards(w, s, b, sellAmount, maxBuyAmount, PremiumNow(w));
        if BidLegs(w, s, b, sellAmount, maxBuyAmount, PremiumNow(w)).Err? {
          LegsRefused(w, s, b, sellAmount, maxBuyAmount, PremiumNow(w));
        } else {
          FillRefused(w, bidder, to, s, b, sellAmount, BidPrice(w, s, b, sellAmount));
        }
      }
    }
  }

  /** Why no bid can be priced. */
  lemma PremiumRefused(w: World)
    requires AuctionSound(w.index, w.clock) && BidPremium(w).Err?
    ensures var e, r := BidPremium(w).error, w.index.rebalance;
      || (e == InvalidAccountOwner && w.index.status.Absent?)
      || (e == Error.Paused && w.index.status.Paused?)
      || (e == NotSealed && w.index.status.Bootstrapping?)
      || (e == NoRebalance && !r.active)
      || (e == AuctionClosed && !(r.startTs <= w.clock <= r.endTs))
      || (e == InvalidPremium && PremiumNow(w) > w.index.params.maxPremiumBps)
  {
    var r := w.index.rebalance;
    if r.active {
      PremiumStaysInBand(r.startPremiumBps, r.endPremiumBps, r.startTs, r.endTs, w.clock);
    }
  }

  lemma ClosingRefused(w: World, caller: Key)
    requires EndRebalance(w, caller).Err?
    ensures ClosingSays(w, caller, EndRebalance(w, caller).error)
  {
    SyncUnitsEffect(w);
    assert forall i :: 0 <= i < |w.vaults| ==>
      HeldUnits(w, i) == DerivedUnits(w.index.components[i].units, w.vaults[i], w.supply);
  }

  // ---------------------------------------------------------------------------------------------
  // Leaving
  // ---------------------------------------------------------------------------------------------

  /** What refuses the payout of one slot. */
  ghost predicate PayoutSays(w: World, to: Key, net: uint64, bound: uint64, i: nat, e: Error)
    requires i < |w.vaults|
  {
    match e
    case MathOverflow => Payout(w, net, i) > U64_MAX
    case SlippageExceeded => Payout(w, net, i) < bound
    case TokenInsufficientFunds => w.vaults[i] < Payout(w, net, i)
    case TokenOverflow => Balance(w.wallets, ComponentAccount(w, to, i)) + Payout(w, net, i) > U64_MAX
    case _ => false
  }

  /** A payout stops at a slot that its error tells the truth about. */
  lemma {:induction false} PayingRefused(w: World, to: Key, minOut: seq<uint64>, net: uint64, i: nat) returns (j: nat)
    requires |minOut| == |w.vaults| && i <= |w.vaults| && Distinct(w.index.components)
    requires PayOutFrom(w, to, minOut, net, i).Err?
    ensures i <= j < |w.vaults| && PayoutSays(w, to, net, minOut[j], j, PayOutFrom(w, to, minOut, net, i).error)
    decreases |w.vaults| - i
  {
    UnitsOutValue(w.index.components[i].units, net);
    if Payout(w, net, i) > U64_MAX || Payout(w, net, i) < minOut[i] {
      j := i;
    } else {
      var next := TransferFromVault(w, i, to, Payout(w, net, i));
      if next.Err? {
        j := i;
      } else {
        j := PayingRefused(next.value, to, minOut, net, i + 1);
        assert w.index.components[i].mint != w.index.components[j].mint;
        assert ComponentAccount(w, to, j) != ComponentAccount(w, to, i);
      }
    }
  }

  /** With every payout covered only bounds and room are left to refuse it. */
  lemma CoveredPayoutRefused(w: World, to: Key, minOut: seq<uint64>, net: uint64)
    requires |minOut| == |w.vaults| && Distinct(w.index.components) && Covers(w, net)
    requires PayOutFrom(w, to, minOut, net, 0).Err?
    ensures var e := PayOutFrom(w, to, minOut, net, 0).error;
      (e == SlippageExceeded && !BoundsMet(w, minOut, net)) || (e == TokenOverflow && !HasRoom(w, to, net))
  {
    var j := PayingRefused(w, to, minOut, net, 0);
    assert Payout(w, net, j) <= w.vaults[j];
  }

  lemma PaidRedeemRefused(w: World, charged: World, to: Key, net: uint64, minOut: seq<uint64>)
    requires |minOut| == |w.vaults| && Distinct(w.index.components) && Covers(w, net) && net <= w.supply
    requires SamePurses(w, charged) && charged.supply == w.supply - net
    ensures var paid := PayOutFrom(charged, to, minOut, net, 0);
      && (paid.Err? ==>
            || (paid.error == SlippageExceeded && !BoundsMet(w, minOut, net))
            || (paid.error == TokenOverflow && !HasRoom(w, to, net)))
      && (paid.Ok? && SyncUnits(paid.value).Err? ==>
            SyncUnits(paid.value).error == MathOverflow && !RestFits(w, net, w.supply - net))
  {
    SamePayouts(w, charged, to, net, minOut, charged.supply);
    var paid := PayOutFrom(charged, to, minOut, net, 0);
    if paid.Err? {
      CoveredPayoutRefused(charged, to, minOut, net);
    } else {
      ClosingSyncSucceedsExactly(charged, to, minOut, net, paid.value);
      SyncUnitsEffect(paid.value);
    }
  }

  /** A redemption whose tokens are retired is its payout and its sync. */
  lemma RetiredRedeem(w: World, user: Key, to: Key, amount: uint64, fee: uint64, net: uint64, minOut: seq<uint64>,
                      burned: World, charged: World)
    requires |minOut| == |w.vaults| == |charged.vaults| && net + fee == amount
    requires BurnIndexTokens(w, user, amount) == Ok(burned)
    requires MintIndexTokens(burned, w.index.feeRecipient, fee) == Ok(charged)
    ensures var paid := PayOutFrom(charged, to, minOut, net, 0);
      RedeemCharged(w, user, to, amount, fee, minOut)
        == if paid.Err? then Err(paid.error) else SyncUnits(paid.value)
  {
  }

  lemma UnburntRedeem(w: World, user: Key, to: Key, amount: uint64, fee: uint64, minOut: seq<uint64>)
    requires |minOut| == |w.vaults| && fee <= amount <= w.supply
    requires amount > Balance(w.wallets, Account(user, IndexMint))
    ensures RedeemCharged(w, user, to, amount, fee, minOut) == Err(TokenInsufficientFunds)
  {
  }

  /** What refuses a redemption in a settled world. */
  ghost predicate RetiringSays(w: World, user: Key, to: Key, amount: uint64, net: uint64, minOut: seq<uint64>, e: Error)
    requires |minOut| == |w.vaults| && Covers(w, net) && net <= w.supply
  {
    || (e == TokenInsufficientFunds && amount > Balance(w.wallets, Account(user, IndexMint)))
    || (e == SlippageExceeded && !BoundsMet(w, minOut, net))
    || (e == TokenOverflow && !HasRoom(w, to, net))
    || (e == MathOverflow && !RestFits(w, net, w.supply - net))
  }

  lemma ChargedRedeemRefused(w: World, user: Key, to: Key, amount: uint64, fee: uint64, net: uint64,
                             minOut: seq<uint64>)
    requires |minOut| == |w.vaults| && Distinct(w.index.components) && Covers(w, net)
    requires w.supply == Total(w.wallets, IndexMint) && net + fee == amount <= w.supply
    requires RedeemCharged(w, user, to, amount, fee, minOut).Err?
    ensures RetiringSays(w, user, to, amount, net, minOut, RedeemCharged(w, user, to, amount, fee, minOut).error)
  {
    RetireSucceedsExactly(w, user, amount, fee);
    if amount > Balance(w.wallets, Account(user, IndexMint)) {
      UnburntRedeem(w, user, to, amount, fee, minOut);
    } else {
      var burned := BurnIndexTokens(w, user, amount).value;
      var charged := MintIndexTokens(burned, w.index.feeRecipient, fee).value;
      RetiredWorld(w, user, amount, fee, burned, charged);
      PaidRedeemRefused(w, charged, to, net, minOut);
      RetiredRedeem(w, user, to, amount, fee, net, minOut, burned, charged);
    }
  }

  lemma SettledRedeemRefused(w: World, settled: World, user: Key, to: Key, amount: uint64, fee: uint64, net: uint64,
                             minOut: seq<uint64>)
    requires Sound(w) && |minOut| == |w.vaults| == |settled.vaults|
    requires Settled(w) == Ok(settled) && 0 < amount <= PricedSupply(w) && net + fee == amount && net == Net(w, amount)
    requires RedeemCharged(settled, user, to, amount, fee, minOut).Err?
    ensures RedeemSays(w, user, to, amount, minOut, RedeemCharged(settled, user, to, amount, fee, minOut).error)
  {
    SettledWorld(w, settled, user);
    SettledPayouts(w, settled, to, net, minOut);
    SettledRest(w, settled, to, net);
    ChargedRedeemRefused(settled, user, to, amount, fee, net, minOut);
  }

  lemma SealedRedeemRefused(w: World, settled: World, user: Key, to: Key, amount: uint64, minOut: seq<uint64>)
    requires Sound(w) && w.index.status.Sealed() && |minOut| == |w.vaults|
    requires Settled(w) == Ok(settled) && 0 < amount <= PricedSupply(w)
    requires Redeem(w, user, to, amount, minOut).Err?
    ensures RedeemSays(w, user, to, amount, minOut, Redeem(w, user, to, amount, minOut).error)
  {
    FeeWithin(amount, w.index.params.redeemFeeBps);
    var fee := FlatFee(amount, w.index.params.redeemFeeBps).value;
    SettledWorld(w, settled, user);
    RedeemIsStaged(w, settled, user, to, amount, fee, minOut);
    SettledRedeemRefused(w, settled, user, to, amount, fee, Net(w, amount), minOut);
  }

  lemma RedeemRefused(w: World, user: Key, to: Key, amount: uint64, minOut: seq<uint64>)
    requires Sound(w) && Redeem(w, user, to, amount, minOut).Err?
    ensures RedeemSays(w, user, to, amount, minOut, Redeem(w, user, to, amount, minOut).error)
  {
    if 0 < amount && w.index.status.Sealed() && |minOut| == |w.vaults| {
      if Accrue(w).Err? {
        AccrualRefused(w);
      } else {
        AccrueEffect(w);
        if amount <= PricedSupply(w) {
          if Settled(w).Err? {
            SettlingRefused(w);
          } else {
            SealedRedeemRefused(w, Settled(w).value, user, to, amount, minOut);
          }
        }
      }
    }
  }

  // ---------------------------------------------------------------------------------------------
  // Every instruction
  // ---------------------------------------------------------------------------------------------

  lemma PlainStepRefused(w: World, step: Step)
    requires Sound(w) && Plain(step) && Apply(w, step).Err?
    ensures Says(w, step, Apply(w, step).error)
  {
  }

  /** In a sound world every instruction that fails says why: what its error names is so, slot, account or
      word, and an instruction has no errors but these. */
  lemma ErrorsTellTheTruth(w: World, step: Step)
    requires Sound(w) && step.OfProgram() && Apply(w, step).Err?
    ensures Says(w, step, Apply(w, step).error)
  {
    match step
    case DoIssue(user, to, amount, maxIn) => IssueRefused(w, user, to, amount, maxIn);
    case DoRedeem(user, to, amount, minOut) => RedeemRefused(w, user, to, amount, minOut);
    case DoAccrue => AccruingRefused(w);
    case DoPropose(caller, targets, prices, auction) => ProposalRefused(w, caller, targets, prices, auction);
    case DoBid(bidder, to, sell, buy, sellAmount, maxBuyAmount) =>
      BidRefused(w, bidder, to, sell, buy, sellAmount, maxBuyAmount);
    case DoEnd(caller) => ClosingRefused(w, caller);
    case _ => PlainStepRefused(w, step);
  }

  // ---------------------------------------------------------------------------------------------
  // Which error comes first
  // ---------------------------------------------------------------------------------------------

  /** The error of a broken check, or else what the checks after it say. */
  function When(broken: bool, e: Error, next: Option<Error>): Option<Error> {
    if broken then Some(e) else next
  }

  function Missing(w: World, next: Option<Error>): Option<Error> {
    When(w.index.status.Absent?, InvalidAccountOwner, next)
  }

  function NotLive(w: World, next: Option<Error>): Option<Error> {
    Missing(w, When(w.index.status.Paused?, Error.Paused, When(w.index.status.Bootstrapping?, NotSealed, next)))
  }

  function OutOfCaps(p: Params, next: Option<Error>): Option<Error> {
    When(p.streamingFeeBps > 500 || p.issueFeeBps > 100 || p.redeemFeeBps > 100 || p.maxPremiumBps > 1_000, FeeTooHigh,
         When(p.rebalanceDelay < 300, TimelockNotMet, next))
  }

  /** The first check that a step breaks before it touches tokens or arithmetic. */
  ghost function FirstBroken(w: World, step: Step): Option<Error> {
    var idx, r := w.index, w.index.rebalance;
    match step
    case DoInit(_, _, _, params) =>
      OutOfCaps(params, When(!idx.status.Absent?, AccountAlreadyInitialized,
                             When(w.supply != 0, InvalidIndexMint, None)))
    case DoAddComponent(caller, mint, _, units) =>
      When(units == 0, ZeroAmount,
           Missing(w, When(caller != idx.manager, NotManager, When(idx.status.Sealed(), AlreadySealed,
                   When(|w.vaults| >= 16, TooManyComponents,
                        When(exists i :: 0 <= i < |w.vaults| && idx.components[i].mint == mint, DuplicateComponent,
                             None))))))
    case DoSeal(caller) =>
      Missing(w, When(caller != idx.manager, NotManager,
                      When(idx.status.Sealed(), AlreadySealed, When(w.vaults == [], UnknownComponent, None))))
    case DoIssue(_, _, amount, maxIn) =>
      When(amount == 0, ZeroAmount, NotLive(w, When(|maxIn| != |w.vaults|, ArityMismatch, None)))
    case DoRedeem(_, _, amount, minOut) =>
      When(amount == 0, ZeroAmount,
           Missing(w, When(idx.status.Bootstrapping?, NotSealed, When(|minOut| != |w.vaults|, ArityMismatch, None))))
    case DoAccrue => Missing(w, When(idx.status.Bootstrapping?, NotSealed, None))
    case DoPropose(caller, targets, prices, auction) =>
      Missing(w, When(caller != idx.manager, NotManager, NotLive(w, When(r.active, RebalanceActive,
              When(|targets| != |w.vaults| || |prices| != |w.vaults|, ArityMismatch,
                   When(|| !(0 < auction.duration <= MAX_AUCTION_DURATION)
                        || !WithinCeiling(auction, idx.params.maxPremiumBps), InvalidPremium,
                        When(0 in prices, InvalidPrice, None)))))))
    case DoBid(_, _, sell, buy, sellAmount, _) =>
      When(sell == buy, SameComponent, When(sellAmount == 0, ZeroAmount, NotLive(w, When(!r.active, NoRebalance,
           When(!(r.startTs <= w.clock <= r.endTs), AuctionClosed,
                When(PremiumNow(w) > idx.params.maxPremiumBps, InvalidPremium,
                     When(sell >= |w.vaults| || buy >= |w.vaults|, UnknownComponent,
                          When(w.supply == 0, SupplyTooSmall, None))))))))
    case DoEnd(caller) =>
      Missing(w, When(!r.active, NoRebalance, When(caller != idx.manager && w.clock <= r.endTs, NotManager, None)))
    case DoSetParams(caller, params) =>
      OutOfCaps(params, Missing(w, When(caller != idx.governor, NotGovernor, None)))
    case DoSetAuthority(caller, role, _) =>
      Missing(w, When(caller != idx.governor, NotGovernor, When(role > 2, InvalidInstructionData, None)))
    case DoSetPaused(caller, paused) =>
      Missing(w, When(paused && caller != idx.governor && caller != idx.manager, NotManager,
                      When(!paused && caller != idx.governor, NotGovernor,
                           When(idx.status.Bootstrapping?, NotSealed, None))))
    case _ => None
  }

  lemma FirstBidCheckDecides(w: World, step: Step)
    requires Sound(w) && step.DoBid? && FirstBroken(w, step).Some?
    ensures Apply(w, step) == Err(FirstBroken(w, step).value)
  {
    PricedAtPremiumNow(w);
    if BidPremium(w).Err? {
      PremiumRefused(w);
    }
  }

  /** Of several checks that an instruction breaks before tokens or arithmetic, the first in that order is
      the one it reports. */
  lemma FirstCheckDecides(w: World, step: Step)
    requires Sound(w) && step.OfProgram() && FirstBroken(w, step).Some?
    ensures Apply(w, step) == Err(FirstBroken(w, step).value)
  {
    if step.DoBid? {
      FirstBidCheckDecides(w, step);
    }
  }
}
