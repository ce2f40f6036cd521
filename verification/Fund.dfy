/** The fund as the program keeps it: an index record with a table of sixteen slots that handlers
    overwrite in place, the vault accounts, the index mint, and the token accounts around them. Every
    handler is proved against the function of the same name in `Handlers`. */
module Fund {
  import opened Words
  import opened FixedPoint
  import opened Accounts
  import Tokens
  import Handlers
  import opened Runs
  import opened Invariant

  class Fund {
    // The index record.
    var status: Status
    var governor: Key
    var manager: Key
    var feeRecipient: Key
    var lastFeeAccrual: int64
    var createdAt: int64
    var params: Params
    const components: array<Component>
    var count: nat
    var rebalance: Rebalance
    // The accounts around it.
    const vaults: array<uint64>
    var supply: uint64
    var wallets: map<Account, uint64>
    var clock: int64

    ghost predicate Valid()
      reads this
    {
      components.Length == MAX_COMPONENTS && vaults.Length == MAX_COMPONENTS && count <= MAX_COMPONENTS
    }

    function Record(): Index
      requires Valid()
      reads this, components
    {
      Index(status, governor, manager, feeRecipient, lastFeeAccrual, createdAt, params, components[..count], rebalance)
    }

    /** What the fields stand for. */
    function State(): World
      requires Valid()
      reads this, components, vaults
    {
      World(Record(), vaults[..count], supply, wallets, clock)
    }

    /** The outcome `r` and the state left behind are what `spec` says: the same error, or success and
        the same world. */
    ghost predicate Agrees(r: Result<()>, spec: Result<World>)
      requires Valid()
      reads this, components, vaults
    {
      match spec
      case Ok(w) => r.Ok? && State() == w
      case Err(e) => r == Err(e)
    }

    /** A chain without an index. */
    constructor (supply: uint64, wallets: map<Account, uint64>, clock: int64)
      ensures Valid() && fresh(components) && fresh(vaults)
      ensures State() == World(NO_INDEX, [], supply, wallets, clock)
    {
      status, governor, manager, feeRecipient := Absent, 0, 0, 0;
      lastFeeAccrual, createdAt := 0, 0;
      params := Params(0, 0, 0, 0, 0);
      components := new Component[MAX_COMPONENTS];
      count := 0;
      rebalance := NO_REBALANCE;
      vaults := new uint64[MAX_COMPONENTS];
      this.supply, this.wallets, this.clock := supply, wallets, clock;
    }

    // -------------------------------------------------------------------------------------------
    // Tokens
    // -------------------------------------------------------------------------------------------

    method TransferFromUser(user: Key, i: nat, amount: uint64) returns (r: Result<()>)
      requires Valid() && i < count
      modifies this`wallets, vaults
      ensures Agrees(r, Tokens.TransferFromUser(old(State()), user, i, amount))
    {
      if amount == 0 {
        return Ok(());
      }
      var debited :- Tokens.Debit(wallets, Account(user, ComponentMint(components[i].mint)), amount);
      if vaults[i] + amount > U64_MAX {
        return Err(TokenOverflow);
      }
      wallets := debited;
      vaults[i] := vaults[i] + amount;
      assert vaults[..count] == old(vaults[..count])[i := vaults[i]];
      return Ok(());
    }

    method TransferFromVault(i: nat, to: Key, amount: uint64) returns (r: Result<()>)
      requires Valid() && i < count
      modifies this`wallets, vaults
      ensures Agrees(r, Tokens.TransferFromVault(old(State()), i, to, amount))
    {
      if amount == 0 {
        return Ok(());
      }
      if vaults[i] < amount {
        return Err(TokenInsufficientFunds);
      }
      var credited :- Tokens.Credit(wallets, Account(to, ComponentMint(components[i].mint)), amount);
      wallets := credited;
      vaults[i] := vaults[i] - amount;
      assert vaults[..count] == old(vaults[..count])[i := vaults[i]];
      return Ok(());
    }

    method MintIndexTokens(to: Key, amount: uint64) returns (r: Result<()>)
      requires Valid()
      modifies this`wallets, this`supply
      ensures Agrees(r, Tokens.MintIndexTokens(old(State()), to, amount))
    {
      if amount == 0 {
        return Ok(());
      }
      var credited :- Tokens.Credit(wallets, Account(to, IndexMint), amount);
      if supply + amount > U64_MAX {
        return Err(TokenOverflow);
      }
      wallets, supply := credited, supply + amount;
      return Ok(());
    }

    method BurnIndexTokens(from: Key, amount: uint64) returns (r: Result<()>)
      requires Valid()
      modifies this`wallets, this`supply
      ensures Agrees(r, Tokens.BurnIndexTokens(old(State()), from, amount))
    {
      var debited :- Tokens.Debit(wallets, Account(from, IndexMint), amount);
      if supply < amount {
        return Err(TokenOverflow);
      }
      wallets, supply := debited, supply - amount;
      return Ok(());
    }

    // -------------------------------------------------------------------------------------------
    // Shared helpers
    // -------------------------------------------------------------------------------------------

    method CheckExists() returns (r: Result<()>)
      requires Valid()
      ensures r == (if Handlers.ReadIndex(State()).Ok? then Ok(()) else Err(Handlers.ReadIndex(State()).error))
    {
      return if status.Absent? then Err(InvalidAccountOwner) else Ok(());
    }

    method CheckLive() returns (r: Result<()>)
      requires Valid()
      ensures r == Handlers.IsLive(Record())
    {
      match status
      case Live => return Ok(());
      case Paused => return Err(Error.Paused);
      case _ => return Err(NotSealed);
    }

    /** What every vault holds, slot by slot, as a value. */
    method ReadVaults() returns (balances: seq<uint64>)
      requires Valid()
      ensures balances == vaults[..count]
    {
      balances := [];
      for i := 0 to count
        invariant balances == vaults[..i]
      {
        balances := balances + [vaults[i]];
      }
    }

    /** Overwrite the units of every component with what its vault is worth, one slot after another. */
    method SyncUnits(balances: seq<uint64>) returns (r: Result<()>)
      requires Valid() && balances == vaults[..count]
      modifies components
      ensures Agrees(r, Handlers.SyncUnits(old(State())))
    {
      if supply == 0 {
        return Ok(());
      }
      var i := 0;
      while i < count
        invariant i <= count
        invariant Handlers.SyncFrom(components[..count], balances, supply, i)
               == Handlers.SyncFrom(old(components[..count]), balances, supply, 0)
      {
        ghost var cs := components[..count];
        var units :- UnitsFromBalance(balances[i], supply);
        components[i] := components[i].(units := units);
        assert components[..count] == cs[i := cs[i].(units := units)];
        i := i + 1;
      }
      return Ok(());
    }

    /** Value of the vaults at reference prices, as a running total. */
    method NavE6(balances: seq<uint64>) returns (r: Result<uint64>)
      requires Valid() && |balances| == count
      ensures r == Handlers.NavE6(components[..count], balances)
    {
      var total: uint128 := 0;
      var i := 0;
      while i < count
        invariant i <= count
        invariant Handlers.NavFrom(components[..count], balances, i, total)
               == Handlers.NavFrom(components[..count], balances, 0, 0)
      {
        var c := components[i];
        var value :- ValueE9(balances[i], c.decimals, c.refPriceE9);
        if total + value > U128_MAX {
          return Err(MathOverflow);
        }
        total := total + value;
        i := i + 1;
      }
      return ToU64(total / 1_000);
    }

    method Accrue() returns (r: Result<()>)
      requires Valid()
      modifies this`lastFeeAccrual, this`wallets, this`supply
      ensures Agrees(r, Handlers.Accrue(old(State())))
    {
      var elapsed := Handlers.SaturatingSub(clock, lastFeeAccrual);
      var owed :- StreamingFeeTokens(supply, params.streamingFeeBps, elapsed);
      lastFeeAccrual := clock;
      r := MintIndexTokens(feeRecipient, owed);
    }

    // -------------------------------------------------------------------------------------------
    // Setting up
    // -------------------------------------------------------------------------------------------

    method InitIndex(governor: Key, manager: Key, feeRecipient: Key, params: Params) returns (r: Result<()>)
      requires Valid()
      modifies this`status, this`governor, this`manager, this`feeRecipient, this`params
      modifies this`lastFeeAccrual, this`createdAt, this`count, this`rebalance
      ensures Valid()
      ensures Agrees(r, Handlers.InitIndex(old(State()), governor, manager, feeRecipient, params))
    {
      var _ :- Handlers.CheckFees(params);
      if !status.Absent? {
        return Err(AccountAlreadyInitialized);
      }
      if supply != 0 {
        return Err(InvalidIndexMint);
      }
      status := Bootstrapping;
      this.governor, this.manager, this.feeRecipient := governor, manager, feeRecipient;
      this.params := params;
      lastFeeAccrual, createdAt := clock, clock;
      count, rebalance := 0, NO_REBALANCE;
      assert components[..count] == [];
      assert vaults[..count] == [];
      return Ok(());
    }

    /** Position of a mint in the table. */
    method FindComponent(mint: Key) returns (slot: Option<nat>)
      requires Valid()
      ensures slot == Accounts.FindComponent(components[..count], mint)
    {
      for i := 0 to count
        invariant Accounts.FindFrom(components[..count], mint, i) == Accounts.FindComponent(components[..count], mint)
      {
        if components[i].mint == mint {
          return Some(i);
        }
      }
      return None;
    }

    method AddComponent(caller: Key, mint: Key, decimals: uint8, units: uint64) returns (r: Result<()>)
      requires Valid()
      modifies this`count, components, vaults
      ensures Valid()
      ensures Agrees(r, Handlers.AddComponent(old(State()), caller, mint, decimals, units))
    {
      if units == 0 {
        return Err(ZeroAmount);
      }
      var _ :- CheckExists();
      if manager != caller {
        return Err(NotManager);
      }
      if !status.Bootstrapping? {
        return Err(AlreadySealed);
      }
      if count >= MAX_COMPONENTS {
        return Err(TooManyComponents);
      }
      var found := FindComponent(mint);
      if found.Some? {
        return Err(DuplicateComponent);
      }
      components[count] := Component(mint, units, units, 0, decimals);
      vaults[count] := 0;
      count := count + 1;
      assert components[..count] == old(components[..count]) + [Component(mint, units, units, 0, decimals)];
      assert vaults[..count] == old(vaults[..count]) + [0];
      return Ok(());
    }

    method SealIndex(caller: Key) returns (r: Result<()>)
      requires Valid()
      modifies this`status, this`lastFeeAccrual
      ensures Agrees(r, Handlers.SealIndex(old(State()), caller))
    {
      var _ :- CheckExists();
      if manager != caller {
        return Err(NotManager);
      }
      if !status.Bootstrapping? {
        return Err(AlreadySealed);
      }
      if count == 0 {
        return Err(UnknownComponent);
      }
      status := Live;
      lastFeeAccrual := clock;
      return Ok(());
    }

    // -------------------------------------------------------------------------------------------
    // Entering and leaving
    // -------------------------------------------------------------------------------------------

    /** Bring the units in step with the vaults, read afresh. */
    method Resync() returns (r: Result<()>)
      requires Valid()
      modifies components
      ensures Agrees(r, Handlers.SyncUnits(old(State())))
    {
      var balances := ReadVaults();
      r := SyncUnits(balances);
    }

    /** Collect what `gross` index tokens cost, one transfer a slot. */
    method Deliver(user: Key, maxIn: seq<uint64>, gross: uint64) returns (r: Result<()>)
      requires Valid() && |maxIn| == count
      modifies this`wallets, vaults
      ensures Agrees(r, Handlers.DeliverFrom(old(State()), user, maxIn, gross, 0))
    {
      var i := 0;
      while i < count
        invariant i <= count
        invariant Handlers.DeliverFrom(State(), user, maxIn, gross, i)
               == Handlers.DeliverFrom(old(State()), user, maxIn, gross, 0)
      {
        var required :- UnitsIn(components[i].units, gross);
        if required > maxIn[i] {
          return Err(SlippageExceeded);
        }
        var _ :- TransferFromUser(user, i, required);
        i := i + 1;
      }
      return Ok(());
    }

    /** Pay out what `net` index tokens are worth, one transfer a slot. */
    method PayOut(to: Key, minOut: seq<uint64>, net: uint64) returns (r: Result<()>)
      requires Valid() && |minOut| == count
      modifies this`wallets, vaults
      ensures Agrees(r, Handlers.PayOutFrom(old(State()), to, minOut, net, 0))
    {
      var i := 0;
      while i < count
        invariant i <= count
        invariant Handlers.PayOutFrom(State(), to, minOut, net, i)
               == Handlers.PayOutFrom(old(State()), to, minOut, net, 0)
      {
        var payout :- UnitsOut(components[i].units, net);
        if payout < minOut[i] {
          return Err(SlippageExceeded);
        }
        var _ :- TransferFromVault(i, to, payout);
        i := i + 1;
      }
      return Ok(());
    }

    method Issue(user: Key, to: Key, amount: uint64, maxIn: seq<uint64>) returns (r: Result<()>)
      requires Valid()
      modifies this`lastFeeAccrual, this`wallets, this`supply, components, vaults
      ensures Agrees(r, Handlers.Issue(old(State()), user, to, amount, maxIn))
    {
      if amount == 0 {
        return Err(ZeroAmount);
      }
      var _ :- CheckExists();
      var _ :- CheckLive();
      if |maxIn| != count {
        return Err(ArityMismatch);
      }
      var _ :- Accrue();
      var _ :- Resync();
      r := CompleteIssue(user, to, amount, maxIn);
    }

    /** The rest of an issue, at settled units: charge, mint, and read the vaults again. */
    method CompleteIssue(user: Key, to: Key, amount: uint64, maxIn: seq<uint64>) returns (r: Result<()>)
      requires Valid() && |maxIn| == count
      modifies this`wallets, this`supply, components, vaults
      ensures Agrees(r, Handlers.IssueSettled(old(State()), user, to, amount, maxIn))
    {
      // The fee is minted on top of the user's tokens, backed by what the user delivers.
      var feeTokens :- FlatFee(amount, params.issueFeeBps);
      if amount + feeTokens > U64_MAX {
        return Err(MathOverflow);
      }
      r := ChargeIssue(user, to, amount, feeTokens, maxIn);
    }

    /** Collect the components, mint the tokens and the fee, and bring the units in step. */
    method ChargeIssue(user: Key, to: Key, amount: uint64, feeTokens: uint64, maxIn: seq<uint64>)
      returns (r: Result<()>)
      requires Valid() && |maxIn| == count && amount + feeTokens <= U64_MAX
      modifies this`wallets, this`supply, components, vaults
      ensures Agrees(r, Handlers.IssueCharged(old(State()), user, to, amount, feeTokens, maxIn))
    {
      var _ :- Deliver(user, maxIn, amount + feeTokens);
      var _ :- MintIndexTokens(to, amount);
      if feeTokens > 0 {
        var _ :- MintIndexTokens(feeRecipient, feeTokens);
      }
      r := Resync();
    }

    method Redeem(user: Key, to: Key, amount: uint64, minOut: seq<uint64>) returns (r: Result<()>)
      requires Valid()
      modifies this`lastFeeAccrual, this`wallets, this`supply, components, vaults
      ensures Agrees(r, Handlers.Redeem(old(State()), user, to, amount, minOut))
    {
      if amount == 0 {
        return Err(ZeroAmount);
      }
      var _ :- CheckExists();
      if status.Bootstrapping? {
        return Err(NotSealed);
      }
      if |minOut| != count {
        return Err(ArityMismatch);
      }
      var _ :- Accrue();
      if supply < amount {
        return Err(SupplyTooSmall);
      }
      var _ :- Resync();
      r := CompleteRedeem(user, to, amount, minOut);
    }

    /** The rest of a redemption, at settled units: burn, pay out, and read the vaults again. */
    method CompleteRedeem(user: Key, to: Key, amount: uint64, minOut: seq<uint64>) returns (r: Result<()>)
      requires Valid() && |minOut| == count
      modifies this`wallets, this`supply, components, vaults
      ensures Agrees(r, Handlers.RedeemSettled(old(State()), user, to, amount, minOut))
    {
      var feeTokens :- FlatFee(amount, params.redeemFeeBps);
      if amount < feeTokens {
        return Err(MathOverflow);
      }
      var _ :- BurnIndexTokens(user, amount);
      if feeTokens > 0 {
        var _ :- MintIndexTokens(feeRecipient, feeTokens);
      }
      var _ :- PayOut(to, minOut, amount - feeTokens);
      r := Resync();
    }

    method AccrueFees() returns (r: Result<()>)
      requires Valid()
      modifies this`lastFeeAccrual, this`wallets, this`supply, components
      ensures Agrees(r, Handlers.AccrueFees(old(State())))
    {
      var _ :- CheckExists();
      if status.Bootstrapping? {
        return Err(NotSealed);
      }
      var _ :- Accrue();
      r := Resync();
    }

    // -------------------------------------------------------------------------------------------
    // Rebalancing
    // -------------------------------------------------------------------------------------------

    /** Write the targets and prices of a proposal over those in the table. */
    method Retarget(targets: seq<uint64>, prices: seq<uint64>)
      requires Valid() && |targets| == |prices| == count
      modifies components
      ensures components[..count] == Handlers.RetargetFrom(old(components[..count]), targets, prices, 0)
    {
      var i := 0;
      while i < count
        invariant i <= count
        invariant Handlers.RetargetFrom(components[..count], targets, prices, i)
               == Handlers.RetargetFrom(old(components[..count]), targets, prices, 0)
      {
        ghost var cs := components[..count];
        components[i] := components[i].(refPriceE9 := prices[i], targetUnits := targets[i]);
        assert components[..count] == cs[i := components[i]];
        i := i + 1;
      }
    }

    method ProposeRebalance(caller: Key, targets: seq<uint64>, prices: seq<uint64>, p: AuctionParams)
      returns (r: Result<()>)
      requires Valid()
      modifies this`rebalance, components
      ensures Agrees(r, Handlers.ProposeRebalance(old(State()), caller, targets, prices, p))
    {
      var _ :- CheckExists();
      if manager != caller {
        return Err(NotManager);
      }
      var _ :- CheckLive();
      if rebalance.active {
        return Err(RebalanceActive);
      }
      if |targets| != count || |prices| != count {
        return Err(ArityMismatch);
      }
      if p.duration == 0 || p.duration > MAX_AUCTION_DURATION {
        return Err(InvalidPremium);
      }
      if !Handlers.AuctionParamsAllowed(p, params.maxPremiumBps) {
        return Err(InvalidPremium);
      }
      if 0 in prices {
        return Err(InvalidPrice);
      }
      var balances := ReadVaults();
      Retarget(targets, prices);
      var nav :- NavE6(balances);
      var startTs := clock + params.rebalanceDelay;
      var endTs := startTs + p.duration;
      if startTs > I64_MAX || endTs > I64_MAX || p.maxNavLossBps > BPS {
        return Err(MathOverflow);
      }
      var floor128 :- MulDivFloor(nav, BPS - p.maxNavLossBps, BPS);
      var navFloor :- ToU64(floor128);
      rebalance := Rebalance(true, caller, clock, startTs, endTs, navFloor,
                             p.startPremiumBps, p.endPremiumBps, p.maxNavLossBps);
      return Ok(());
    }

    /** The window, premium and ceiling checks of a bid. */
    method CheckAuction() returns (r: Result<int32>)
      requires Valid()
      ensures r == Handlers.BidPremium(State())
    {
      var _ :- CheckExists();
      var _ :- CheckLive();
      if !rebalance.active {
        return Err(NoRebalance);
      }
      var premium :-
        PremiumAt(rebalance.startPremiumBps, rebalance.endPremiumBps, rebalance.startTs, rebalance.endTs, clock);
      if premium > params.maxPremiumBps {
        return Err(InvalidPremium);
      }
      return Ok(premium);
    }

    method Bid(bidder: Key, to: Key, s: uint8, b: uint8, sellAmount: uint64, maxBuyAmount: uint64)
      returns (r: Result<()>)
      requires Valid()
      modifies this`wallets, components, vaults
      ensures Agrees(r, Handlers.Bid(old(State()), bidder, to, s, b, sellAmount, maxBuyAmount))
    {
      if s == b {
        return Err(SameComponent);
      }
      if sellAmount == 0 {
        return Err(ZeroAmount);
      }
      var premium :- CheckAuction();
      if s >= count || b >= count {
        return Err(UnknownComponent);
      }
      if supply == 0 {
        return Err(SupplyTooSmall);
      }
      var buyAmount :- CheckLegs(s, b, sellAmount, maxBuyAmount, premium);
      r := Fill(bidder, to, s, b, sellAmount, buyAmount);
    }

    /** Move both legs, hold the fund to its NAV floor and bring the units in step. */
    method Fill(bidder: Key, to: Key, s: nat, b: nat, sellAmount: uint64, buyAmount: uint64) returns (r: Result<()>)
      requires Valid() && s < count && b < count
      modifies this`wallets, components, vaults
      ensures Agrees(r, Handlers.FillBid(old(State()), bidder, to, s, b, sellAmount, buyAmount))
    {
      var _ :- TransferFromUser(bidder, b, buyAmount);
      var _ :- TransferFromVault(s, to, sellAmount);
      var balances := ReadVaults();
      var nav :- NavE6(balances);
      if nav < rebalance.navFloorE6 {
        return Err(NavFloorBreached);
      }
      r := SyncUnits(balances);
    }

    /** The size and price checks of a bid on its two legs. */
    method CheckLegs(s: nat, b: nat, sellAmount: uint64, maxBuyAmount: uint64, premium: int32)
      returns (r: Result<uint64>)
      requires Valid() && s < count && b < count
      ensures r == Handlers.BidLegs(State(), s, b, sellAmount, maxBuyAmount, premium)
    {
      var sell, buy := components[s], components[b];
      var sellTarget :- Handlers.TargetBalance(sell.targetUnits, supply);
      var buyTarget :- Handlers.TargetBalance(buy.targetUnits, supply);
      var buyCap :- Handlers.BuyCap(buyTarget, params.maxPremiumBps);
      if vaults[s] <= sellTarget {
        return Err(SellLegAtTarget);
      }
      if sellAmount > vaults[s] - sellTarget {
        return Err(SellAmountExceedsExcess);
      }
      if vaults[b] >= buyCap {
        return Err(BuyLegAtCap);
      }
      var valueOut :- ValueE9(sellAmount, sell.decimals, sell.refPriceE9);
      if premium > BPS {
        return Err(MathOverflow);
      }
      var valueIn :- MulDivCeil(valueOut, BPS - premium, BPS);
      var buyAmount :- AmountFromValueCeil(valueIn, buy.decimals, buy.refPriceE9);
      if buyAmount > maxBuyAmount {
        return Err(SlippageExceeded);
      }
      if buyAmount > buyCap - vaults[b] {
        return Err(BuyAmountExceedsCap);
      }
      return Ok(buyAmount);
    }

    /** Set every target to the units beside it. */
    method Settle()
      requires Valid()
      modifies components
      ensures components[..count] == Handlers.SettleFrom(old(components[..count]), 0)
    {
      var i := 0;
      while i < count
        invariant i <= count
        invariant Handlers.SettleFrom(components[..count], i) == Handlers.SettleFrom(old(components[..count]), 0)
      {
        ghost var cs := components[..count];
        components[i] := components[i].(targetUnits := components[i].units);
        assert components[..count] == cs[i := components[i]];
        i := i + 1;
      }
    }

    method EndRebalance(caller: Key) returns (r: Result<()>)
      requires Valid()
      modifies this`rebalance, components
      ensures Agrees(r, Handlers.EndRebalance(old(State()), caller))
    {
      var _ :- CheckExists();
      if !rebalance.active {
        return Err(NoRebalance);
      }
      if clock <= rebalance.endTs && manager != caller {
        return Err(NotManager);
      }
      var _ :- Resync();
      Settle();
      rebalance := NO_REBALANCE.(proposer := rebalance.proposer, proposedAt := rebalance.proposedAt);
      return Ok(());
    }

    // -------------------------------------------------------------------------------------------
    // Governing
    // -------------------------------------------------------------------------------------------

    method SetParams(caller: Key, params: Params) returns (r: Result<()>)
      requires Valid()
      modifies this`params, this`lastFeeAccrual
      ensures Agrees(r, Handlers.SetParams(old(State()), caller, params))
    {
      var _ :- Handlers.CheckFees(params);
      var _ :- CheckExists();
      if governor != caller {
        return Err(NotGovernor);
      }
      if !status.Bootstrapping? {
        lastFeeAccrual := clock;
      }
      this.params := params;
      return Ok(());
    }

    method SetAuthority(caller: Key, role: uint8, authority: Key) returns (r: Result<()>)
      requires Valid()
      modifies this`governor, this`manager, this`feeRecipient
      ensures Agrees(r, Handlers.SetAuthority(old(State()), caller, role, authority))
    {
      var _ :- CheckExists();
      if governor != caller {
        return Err(NotGovernor);
      }
      if role == Handlers.ROLE_GOVERNOR {
        governor := authority;
      } else if role == Handlers.ROLE_MANAGER {
        manager := authority;
      } else if role == Handlers.ROLE_FEE_RECIPIENT {
        feeRecipient := authority;
      } else {
        return Err(InvalidInstructionData);
      }
      return Ok(());
    }

    method SetPaused(caller: Key, paused: bool) returns (r: Result<()>)
      requires Valid()
      modifies this`status
      ensures Agrees(r, Handlers.SetPaused(old(State()), caller, paused))
    {
      var _ :- CheckExists();
      if paused {
        if governor != caller && manager != caller {
          return Err(NotManager);
        }
      } else if governor != caller {
        return Err(NotGovernor);
      }
      if status.Bootstrapping? {
        return Err(NotSealed);
      }
      status := if paused then Status.Paused else Live;
      return Ok(());
    }

    // -------------------------------------------------------------------------------------------
    // Transactions
    // -------------------------------------------------------------------------------------------

    /** Tokens move between two accounts outside the fund. */
    method Send(sender: Account, to: Key, amount: uint64) returns (r: Result<()>)
      requires Valid()
      modifies this`wallets
      ensures Agrees(r, SendTokens(old(State()), sender, to, amount))
    {
      var debited :- Tokens.Debit(wallets, sender, amount);
      var credited :- Tokens.Credit(debited, Account(to, sender.mint), amount);
      wallets := credited;
      return Ok(());
    }

    method Donate(from: Key, slot: nat, amount: uint64) returns (r: Result<()>)
      requires Valid()
      modifies this`wallets, vaults
      ensures Agrees(r, Apply(old(State()), Step.Donate(from, slot, amount)))
    {
      if slot >= count {
        return Err(UnknownComponent);
      }
      r := TransferFromUser(from, slot, amount);
    }

    method Wait(seconds: nat) returns (r: Result<()>)
      requires Valid()
      modifies this`clock
      ensures Agrees(r, Apply(old(State()), Step.Wait(seconds)))
    {
      if clock + seconds > I64_MAX {
        return Err(MathOverflow);
      }
      clock := clock + seconds;
      return Ok(());
    }

    /** An instruction that sets the index up or governs it. */
    method DispatchGoverning(step: Step) returns (r: Result<()>)
      requires Valid()
      requires step.DoInit? || step.DoAddComponent? || step.DoSeal? || step.DoSetParams? || step.DoSetAuthority?
        || step.DoSetPaused?
      modifies this, components, vaults
      ensures Valid()
      ensures Agrees(r, Apply(old(State()), step))
    {
      match step
      case DoInit(governor, manager, feeRecipient, params) => r := InitIndex(governor, manager, feeRecipient, params);
      case DoAddComponent(caller, mint, decimals, units) => r := AddComponent(caller, mint, decimals, units);
      case DoSeal(caller) => r := SealIndex(caller);
      case DoSetParams(caller, params) => r := SetParams(caller, params);
      case DoSetAuthority(caller, role, authority) => r := SetAuthority(caller, role, authority);
      case DoSetPaused(caller, paused) => r := SetPaused(caller, paused);
    }

    /** Any step, sent to its handler. */
    method Dispatch(step: Step) returns (r: Result<()>)
      requires Valid()
      modifies this, components, vaults
      ensures Valid()
      ensures Agrees(r, Apply(old(State()), step))
    {
      match step
      case DoIssue(user, to, amount, maxIn) => r := Issue(user, to, amount, maxIn);
      case DoRedeem(user, to, amount, minOut) => r := Redeem(user, to, amount, minOut);
      case DoAccrue => r := AccrueFees();
      case DoPropose(caller, targets, prices, auction) => r := ProposeRebalance(caller, targets, prices, auction);
      case DoBid(bidder, to, sell, buy, sellAmount, maxBuyAmount) =>
        r := Bid(bidder, to, sell, buy, sellAmount, maxBuyAmount);
      case DoEnd(caller) => r := EndRebalance(caller);
      case Donate(from, slot, amount) => r := Donate(from, slot, amount);
      case Burn(holder, amount) => r := BurnIndexTokens(holder, amount);
      case Send(sender, to, amount) => r := Send(sender, to, amount);
      case Wait(seconds) => r := Wait(seconds);
      case _ => r := DispatchGoverning(step);
    }

    /** Put back the table and the vault balances. */
    method RestoreSlots(cs: seq<Component>, balances: seq<uint64>)
      requires Valid() && |cs| == |balances| <= MAX_COMPONENTS
      modifies this`count, components, vaults
      ensures count == |cs| && components[..count] == cs && vaults[..count] == balances
    {
      for i := 0 to |cs|
        invariant components[..i] == cs[..i] && vaults[..i] == balances[..i]
      {
        components[i] := cs[i];
        vaults[i] := balances[i];
      }
      count := |cs|;
    }

    /** Put back everything a failed transaction may have written. */
    method Restore(w: World)
      requires Valid() && |w.vaults| <= MAX_COMPONENTS
      modifies this, components, vaults
      ensures Valid() && State() == w
    {
      RestoreSlots(w.index.components, w.vaults);
      var idx := w.index;
      status := idx.status;
      governor, manager, feeRecipient := idx.governor, idx.manager, idx.feeRecipient;
      lastFeeAccrual, createdAt := idx.lastFeeAccrual, idx.createdAt;
      params := idx.params;
      rebalance := idx.rebalance;
      supply, wallets, clock := w.supply, w.wallets, w.clock;
    }

    /** A transaction: the step takes effect as a whole or not at all. */
    method Execute(step: Step) returns (r: Result<()>)
      requires Valid()
      modifies this, components, vaults
      ensures Valid()
      ensures State() == Next(old(State()), step)
      ensures r.Ok? <==> Apply(old(State()), step).Ok?
      ensures r.Err? ==> r.error == Apply(old(State()), step).error
    {
      var before := State();
      r := Dispatch(step);
      if r.Err? {
        Restore(before);
      }
    }

    /** A schedule of transactions: it goes through the worlds of a run, and a sound fund stays sound. */
    method Replay(steps: seq<Step>) returns (ghost worlds: seq<World>)
      requires Valid()
      modifies this, components, vaults
      ensures Valid()
      ensures Run(worlds, steps) && worlds[0] == old(State()) && worlds[|steps|] == State()
      ensures Sound(old(State())) ==> Sound(State())
    {
      worlds := [State()];
      for k := 0 to |steps|
        invariant Valid()
        invariant Run(worlds, steps[..k]) && worlds[0] == old(State()) && worlds[k] == State()
        invariant Sound(old(State())) ==> Sound(State())
      {
        ghost var w := State();
        var _ := Execute(steps[k]);
        worlds := Extended(worlds, steps, k, w, State());
        if Sound(w) {
          SoundKept(w, steps[k]);
        }
      }
      assert steps[..|steps|] == steps;
    }
  }

  /** A run goes on by one step. */
  lemma Extended(worlds: seq<World>, steps: seq<Step>, k: nat, w: World, w': World) returns (longer: seq<World>)
    requires k < |steps| && Run(worlds, steps[..k]) && worlds[k] == w && w' == Next(w, steps[k])
    ensures longer == worlds + [w'] && Run(longer, steps[..k + 1])
  {
    longer := worlds + [w'];
    var taken := steps[..k + 1];
    forall j | 0 <= j < |taken| ensures Follows(longer, taken, j) {
      if j < k {
        assert Follows(worlds, steps[..k], j);
      }
    }
  }
}
