/** What each instruction does to the world, or the error it fails with.

    A failing instruction leaves no trace: the runtime discards the writes of a failed transaction,
    so an error carries no world. Where the program walks the component table, the function takes the
    slot to continue from. */
module Handlers {
  import opened Words
  import opened Division
  import opened FixedPoint
  import opened Accounts
  import opened Tokens

  // ---------------------------------------------------------------------------------------------
  // Shared helpers
  // ---------------------------------------------------------------------------------------------

  function ReadIndex(w: World): Result<Index> {
    if w.index.status.Absent? then Err(InvalidAccountOwner) else Ok(w.index)
  }

  function IsLive(idx: Index): Result<()> {
    match idx.status
    case Live => Ok(())
    case Paused => Err(Error.Paused)
    case _ => Err(NotSealed)
  }

  function CheckFees(p: Params): Result<()> {
    if || p.streamingFeeBps > MAX_STREAMING_FEE_BPS
       || p.issueFeeBps > MAX_MINT_REDEEM_FEE_BPS
       || p.redeemFeeBps > MAX_MINT_REDEEM_FEE_BPS
       || p.maxPremiumBps > MAX_PREMIUM_CEILING_BPS
    then Err(FeeTooHigh)
    else if p.rebalanceDelay < MIN_REBALANCE_DELAY then Err(TimelockNotMet)
    else Ok(())
  }

  /** Rewrite the units of every component from slot `i` on with what its vault is worth. */
  function SyncFrom(cs: seq<Component>, balances: seq<uint64>, supply: uint64, i: nat): (r: Result<seq<Component>>)
    requires |balances| == |cs| && i <= |cs|
    ensures r.Ok? ==> |r.value| == |cs|
    decreases |cs| - i
  {
    if i == |cs| then Ok(cs)
    else
      var units :- UnitsFromBalance(balances[i], supply);
      SyncFrom(cs[i := cs[i].(units := units)], balances, supply, i + 1)
  }

  function SyncUnits(w: World): Result<World> {
    if w.supply == 0 then Ok(w)
    else
      var cs :- SyncFrom(w.index.components, w.vaults, w.supply, 0);
      Ok(w.(index := w.index.(components := cs)))
  }

  function NavFrom(cs: seq<Component>, balances: seq<uint64>, i: nat, total: uint128): Result<uint128>
    requires |balances| == |cs| && i <= |cs|
    decreases |cs| - i
  {
    if i == |cs| then Ok(total)
    else
      var value :- ValueE9(balances[i], cs[i].decimals, cs[i].refPriceE9);
      if total + value > U128_MAX then Err(MathOverflow)
      else NavFrom(cs, balances, i + 1, total + value)
  }

  /** Value of the vaults at reference prices, in micro-dollars. */
  function NavE6(cs: seq<Component>, balances: seq<uint64>): Result<uint64>
    requires |balances| == |cs|
  {
    var total :- NavFrom(cs, balances, 0, 0);
    FloorBounds(total, 1_000);
    ToU64(total / 1_000)
  }

  /** Subtraction of timestamps that sticks at the ends of the range. */
  function SaturatingSub(a: int64, b: int64): int64 {
    if a - b > I64_MAX then I64_MAX else if a - b < I64_MIN then I64_MIN else a - b
  }

  /** Streaming fee owed at the clock of `w`. */
  function FeeOwed(w: World): Result<uint64> {
    StreamingFeeTokens(w.supply, w.index.params.streamingFeeBps, SaturatingSub(w.clock, w.index.lastFeeAccrual))
  }

  /** Move the fee clock and mint what the fund owes its fee recipient. */
  function Accrue(w: World): Result<World> {
    var owed :- FeeOwed(w);
    MintIndexTokens(w.(index := w.index.(lastFeeAccrual := w.clock)), w.index.feeRecipient, owed)
  }

  // ---------------------------------------------------------------------------------------------
  // Setting up
  // ---------------------------------------------------------------------------------------------

  function InitIndex(w: World, governor: Key, manager: Key, feeRecipient: Key, params: Params): Result<World> {
    var _ :- CheckFees(params);
    if !w.index.status.Absent? then Err(AccountAlreadyInitialized)
    else if w.supply != 0 then Err(InvalidIndexMint)
    else
      var idx := Index(Bootstrapping, governor, manager, feeRecipient, w.clock, w.clock, params, [], NO_REBALANCE);
      Ok(w.(index := idx, vaults := []))
  }

  function AddComponent(w: World, caller: Key, mint: Key, decimals: uint8, units: uint64): Result<World> {
    if units == 0 then Err(ZeroAmount)
    else
      var idx :- ReadIndex(w);
      if idx.manager != caller then Err(NotManager)
      else if !idx.status.Bootstrapping? then Err(AlreadySealed)
      else if |idx.components| >= MAX_COMPONENTS then Err(TooManyComponents)
      else if FindComponent(idx.components, mint).Some? then Err(DuplicateComponent)
      else
        var c := Component(mint, units, units, 0, decimals);
        Ok(w.(index := idx.(components := idx.components + [c]), vaults := w.vaults + [0]))
  }

  function SealIndex(w: World, caller: Key): Result<World> {
    var idx :- ReadIndex(w);
    if idx.manager != caller then Err(NotManager)
    else if !idx.status.Bootstrapping? then Err(AlreadySealed)
    else if |idx.components| == 0 then Err(UnknownComponent)
    else Ok(w.(index := idx.(status := Live, lastFeeAccrual := w.clock)))
  }

  // ---------------------------------------------------------------------------------------------
  // Entering and leaving
  // ---------------------------------------------------------------------------------------------

  /** Collect what `gross` index tokens cost from the user, slot by slot. */
  function DeliverFrom(w: World, user: Key, maxIn: seq<uint64>, gross: uint64, i: nat): Result<World>
    requires |maxIn| == |w.vaults| && i <= |w.vaults|
    decreases |w.vaults| - i
  {
    if i == |w.vaults| then Ok(w)
    else
      var required :- UnitsIn(w.index.components[i].units, gross);
      if required > maxIn[i] then Err(SlippageExceeded)
      else
        var w' :- TransferFromUser(w, user, i, required);
        DeliverFrom(w', user, maxIn, gross, i + 1)
  }

  /** Pay out what `net` index tokens are worth, slot by slot. */
  function PayOutFrom(w: World, to: Key, minOut: seq<uint64>, net: uint64, i: nat): Result<World>
    requires |minOut| == |w.vaults| && i <= |w.vaults|
    decreases |w.vaults| - i
  {
    if i == |w.vaults| then Ok(w)
    else
      var payout :- UnitsOut(w.index.components[i].units, net);
      if payout < minOut[i] then Err(SlippageExceeded)
      else
        var w' :- TransferFromVault(w, i, to, payout);
        PayOutFrom(w', to, minOut, net, i + 1)
  }

  /** Collect the components of an issue, mint its tokens and its fee, and bring the units in step. */
  function IssueCharged(w: World, user: Key, to: Key, amount: uint64, fee: uint64, maxIn: seq<uint64>): Result<World>
    requires |maxIn| == |w.vaults| && amount + fee <= U64_MAX
  {
    var delivered :- DeliverFrom(w, user, maxIn, amount + fee, 0);
    var minted :- MintIndexTokens(delivered, to, amount);
    var charged :- MintIndexTokens(minted, w.index.feeRecipient, fee);
    SyncUnits(charged)
  }

  /** The rest of an issue, once the fee clock is settled and the units are in step with the vaults. */
  function IssueSettled(w: World, user: Key, to: Key, amount: uint64, maxIn: seq<uint64>): Result<World>
    requires |maxIn| == |w.vaults|
  {
    var fee :- FlatFee(amount, w.index.params.issueFeeBps);
    if amount + fee > U64_MAX then Err(MathOverflow)
    else IssueCharged(w, user, to, amount, fee, maxIn)
  }

  function Issue(w: World, user: Key, to: Key, amount: uint64, maxIn: seq<uint64>): Result<World> {
    if amount == 0 then Err(ZeroAmount)
    else
      var idx :- ReadIndex(w);
      var _ :- IsLive(idx);
      if |maxIn| != |idx.components| then Err(ArityMismatch)
      else
        var accrued :- Accrue(w);
        var synced :- SyncUnits(accrued);
        IssueSettled(synced, user, to, amount, maxIn)
  }

  /** Burn the tokens of a redemption, mint its fee, pay its components out and bring the units in
      step. */
  function RedeemCharged(w: World, user: Key, to: Key, amount: uint64, fee: uint64, minOut: seq<uint64>): Result<World>
    requires |minOut| == |w.vaults| && fee <= amount
  {
    var burned :- BurnIndexTokens(w, user, amount);
    var charged :- MintIndexTokens(burned, w.index.feeRecipient, fee);
    var paid :- PayOutFrom(charged, to, minOut, amount - fee, 0);
    SyncUnits(paid)
  }

  /** The rest of a redemption, once the fee clock is settled and the units are in step. */
  function RedeemSettled(w: World, user: Key, to: Key, amount: uint64, minOut: seq<uint64>): Result<World>
    requires |minOut| == |w.vaults|
  {
    var fee :- FlatFee(amount, w.index.params.redeemFeeBps);
    if amount < fee then Err(MathOverflow)
    else RedeemCharged(w, user, to, amount, fee, minOut)
  }

  function Redeem(w: World, user: Key, to: Key, amount: uint64, minOut: seq<uint64>): Result<World> {
    if amount == 0 then Err(ZeroAmount)
    else
      var idx :- ReadIndex(w);
      if idx.status.Bootstrapping? then Err(NotSealed)
      else if |minOut| != |idx.components| then Err(ArityMismatch)
      else
        var accrued :- Accrue(w);
        if accrued.supply < amount then Err(SupplyTooSmall)
        else
          var synced :- SyncUnits(accrued);
          RedeemSettled(synced, user, to, amount, minOut)
  }

  function AccrueFees(w: World): Result<World> {
    var idx :- ReadIndex(w);
    if idx.status.Bootstrapping? then Err(NotSealed)
    else
      var accrued :- Accrue(w);
      SyncUnits(accrued)
  }

  // ---------------------------------------------------------------------------------------------
  // Rebalancing
  // ---------------------------------------------------------------------------------------------

  /** Reinterpret an unsigned 16-bit word as a signed one. */
  function AsInt16(x: uint16): int16 {
    if x < 0x8000 then x else x - 0x1_0000
  }

  predicate AuctionParamsAllowed(p: AuctionParams, maxPremiumBps: uint16) {
    var ceiling: int := AsInt16(maxPremiumBps);
    && p.startPremiumBps <= p.endPremiumBps
    && p.endPremiumBps <= ceiling
    && p.startPremiumBps >= -ceiling
    && p.maxNavLossBps <= maxPremiumBps
  }

  /** The table with the targets and prices of a proposal written from slot `i` on. */
  function RetargetFrom(cs: seq<Component>, targets: seq<uint64>, prices: seq<uint64>, i: nat): (ds: seq<Component>)
    requires |targets| == |cs| && |prices| == |cs| && i <= |cs|
    ensures |ds| == |cs|
    decreases |cs| - i
  {
    if i == |cs| then cs
    else RetargetFrom(cs[i := cs[i].(refPriceE9 := prices[i], targetUnits := targets[i])], targets, prices, i + 1)
  }

  function ProposeRebalance(w: World, caller: Key, targets: seq<uint64>, prices: seq<uint64>,
                            p: AuctionParams): Result<World> {
    var idx :- ReadIndex(w);
    if idx.manager != caller then Err(NotManager)
    else
      var _ :- IsLive(idx);
      var n := |idx.components|;
      if idx.rebalance.active then Err(RebalanceActive)
      else if |targets| != n || |prices| != n then Err(ArityMismatch)
      else if p.duration == 0 || p.duration > MAX_AUCTION_DURATION then Err(InvalidPremium)
      else if !AuctionParamsAllowed(p, idx.params.maxPremiumBps) then Err(InvalidPremium)
      else if 0 in prices then Err(InvalidPrice)
      else
        var cs := RetargetFrom(idx.components, targets, prices, 0);
        var nav :- NavE6(cs, w.vaults);
        var startTs := w.clock + idx.params.rebalanceDelay;
        var endTs := startTs + p.duration;
        if startTs > I64_MAX || endTs > I64_MAX || p.maxNavLossBps > BPS then Err(MathOverflow)
        else
          var floor128 :- MulDivFloor(nav, BPS - p.maxNavLossBps, BPS);
          var navFloor :- ToU64(floor128);
          var r := Rebalance(true, caller, w.clock, startTs, endTs, navFloor,
                             p.startPremiumBps, p.endPremiumBps, p.maxNavLossBps);
          Ok(w.(index := idx.(components := cs, rebalance := r)))
  }

  /** Vault balance a leg is aiming at. */
  function TargetBalance(targetUnits: uint64, supply: uint64): Result<uint64> {
    var x :- MulDivFloor(targetUnits, supply, UNIT_SCALE);
    ToU64(x)
  }

  /** Vault balance an auction may raise a leg to: the target plus the premium ceiling. */
  function BuyCap(target: uint64, maxPremiumBps: uint16): Result<uint64> {
    var x :- MulDivFloor(target, maxPremiumBps, BPS);
    var slack :- ToU64(x);
    if target + slack > U64_MAX then Err(MathOverflow) else Ok(target + slack)
  }

  /** What a bidder pays for `sellAmount` of one component in units of another. */
  function BidPayment(sell: Component, buy: Component, sellAmount: uint64, premium: int32): Result<uint64> {
    var valueOut :- ValueE9(sellAmount, sell.decimals, sell.refPriceE9);
    if premium > BPS then Err(MathOverflow)
    else
      var valueIn :- MulDivCeil(valueOut, BPS - premium, BPS);
      AmountFromValueCeil(valueIn, buy.decimals, buy.refPriceE9)
  }

  /** The size guards on the two legs of a bid, and the payment it is accepted at. */
  function BidLegs(w: World, s: nat, b: nat, sellAmount: uint64, maxBuyAmount: uint64, premium: int32): Result<uint64>
    requires s < |w.vaults| && b < |w.vaults|
  {
    var sell, buy := w.index.components[s], w.index.components[b];
    var sellTarget :- TargetBalance(sell.targetUnits, w.supply);
    var buyTarget :- TargetBalance(buy.targetUnits, w.supply);
    var buyCap :- BuyCap(buyTarget, w.index.params.maxPremiumBps);
    if w.vaults[s] <= sellTarget then Err(SellLegAtTarget)
    else if sellAmount > w.vaults[s] - sellTarget then Err(SellAmountExceedsExcess)
    else if w.vaults[b] >= buyCap then Err(BuyLegAtCap)
    else
      var buyAmount :- BidPayment(sell, buy, sellAmount, premium);
      if buyAmount > maxBuyAmount then Err(SlippageExceeded)
      else if buyAmount > buyCap - w.vaults[b] then Err(BuyAmountExceedsCap)
      else Ok(buyAmount)
  }

  /** The premium a bid is priced at, once the auction is known to be open to bids. */
  function BidPremium(w: World): Result<int32> {
    var idx :- ReadIndex(w);
    var _ :- IsLive(idx);
    var r := idx.rebalance;
    if !r.active then Err(NoRebalance)
    else
      var premium :- PremiumAt(r.startPremiumBps, r.endPremiumBps, r.startTs, r.endTs, w.clock);
      if premium > idx.params.maxPremiumBps then Err(InvalidPremium) else Ok(premium)
  }

  /** Move both legs of a bid, hold the fund to its NAV floor and bring the units in step. */
  function FillBid(w: World, bidder: Key, to: Key, s: nat, b: nat, sellAmount: uint64, buyAmount: uint64): Result<World>
    requires s < |w.vaults| && b < |w.vaults|
  {
    var paid :- TransferFromUser(w, bidder, b, buyAmount);
    var filled :- TransferFromVault(paid, s, to, sellAmount);
    var nav :- NavE6(filled.index.components, filled.vaults);
    if nav < w.index.rebalance.navFloorE6 then Err(NavFloorBreached)
    else SyncUnits(filled)
  }

  function Bid(w: World, bidder: Key, to: Key, s: uint8, b: uint8, sellAmount: uint64,
               maxBuyAmount: uint64): Result<World> {
    if s == b then Err(SameComponent)
    else if sellAmount == 0 then Err(ZeroAmount)
    else
      var premium :- BidPremium(w);
      if s >= |w.vaults| || b >= |w.vaults| then Err(UnknownComponent)
      else if w.supply == 0 then Err(SupplyTooSmall)
      else
        var buyAmount :- BidLegs(w, s, b, sellAmount, maxBuyAmount, premium);
        FillBid(w, bidder, to, s, b, sellAmount, buyAmount)
  }

  /** The table with every target from slot `i` on set to the units beside it. */
  function SettleFrom(cs: seq<Component>, i: nat): (ds: seq<Component>)
    requires i <= |cs|
    ensures |ds| == |cs|
    decreases |cs| - i
  {
    if i == |cs| then cs
    else SettleFrom(cs[i := cs[i].(targetUnits := cs[i].units)], i + 1)
  }

  function EndRebalance(w: World, caller: Key): Result<World> {
    var idx :- ReadIndex(w);
    if !idx.rebalance.active then Err(NoRebalance)
    else if w.clock <= idx.rebalance.endTs && idx.manager != caller then Err(NotManager)
    else
      var synced :- SyncUnits(w);
      var r := NO_REBALANCE.(proposer := idx.rebalance.proposer, proposedAt := idx.rebalance.proposedAt);
      Ok(synced.(index := synced.index.(components := SettleFrom(synced.index.components, 0), rebalance := r)))
  }

  // ---------------------------------------------------------------------------------------------
  // Governing
  // ---------------------------------------------------------------------------------------------

  function SetParams(w: World, caller: Key, params: Params): Result<World> {
    var _ :- CheckFees(params);
    var idx :- ReadIndex(w);
    if idx.governor != caller then Err(NotGovernor)
    else
      var last := if idx.status.Bootstrapping? then idx.lastFeeAccrual else w.clock;
      Ok(w.(index := idx.(params := params, lastFeeAccrual := last)))
  }

  const ROLE_GOVERNOR: uint8 := 0
  const ROLE_MANAGER: uint8 := 1
  const ROLE_FEE_RECIPIENT: uint8 := 2

  function SetAuthority(w: World, caller: Key, role: uint8, authority: Key): Result<World> {
    var idx :- ReadIndex(w);
    if idx.governor != caller then Err(NotGovernor)
    else if role == ROLE_GOVERNOR then Ok(w.(index := idx.(governor := authority)))
    else if role == ROLE_MANAGER then Ok(w.(index := idx.(manager := authority)))
    else if role == ROLE_FEE_RECIPIENT then Ok(w.(index := idx.(feeRecipient := authority)))
    else Err(InvalidInstructionData)
  }

  function SetPaused(w: World, caller: Key, paused: bool): Result<World> {
    var idx :- ReadIndex(w);
    if paused && idx.governor != caller && idx.manager != caller then Err(NotManager)
    else if !paused && idx.governor != caller then Err(NotGovernor)
    else if idx.status.Bootstrapping? then Err(NotSealed)
    else Ok(w.(index := idx.(status := if paused then Status.Paused else Live)))
  }
}
