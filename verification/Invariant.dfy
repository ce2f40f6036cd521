/** The invariant of every reachable world, and what it is made of. */
module Invariant {
  import opened Words
  import opened Division
  import opened FixedPoint
  import opened Accounts
  import opened Tokens
  import opened Handlers
  import opened Shares
  import opened Effects
  import opened Runs
  import opened Frames

  /** The invariant the program promises and never checks: every vault covers its stored units. */
  ghost predicate Backed(w: World) {
    forall i :: 0 <= i < |w.vaults| ==> w.index.components[i].units * w.supply <= w.vaults[i] * UNIT_SCALE
  }

  /** The component table is small, free of duplicates, empty before the index exists and not empty
      once it is sealed. */
  ghost predicate TableSound(idx: Index) {
    && |idx.components| <= MAX_COMPONENTS
    && Distinct(idx.components)
    && (idx.status.Absent? ==> idx.components == [])
    && (idx.status.Sealed() ==> idx.components != [])
  }

  /** A running auction: sealed index, priced components, notice kept, premiums and loss in caps. */
  ghost predicate AuctionSound(idx: Index, clock: int64) {
    var r := idx.rebalance;
    r.active ==>
      && idx.status.Sealed()
      && r.proposedAt <= clock
      && r.proposedAt + MIN_REBALANCE_DELAY <= r.startTs < r.endTs <= r.startTs + MAX_AUCTION_DURATION
      && -MAX_PREMIUM_CEILING_BPS <= r.startPremiumBps <= r.endPremiumBps <= MAX_PREMIUM_CEILING_BPS
      && r.maxNavLossBps <= MAX_PREMIUM_CEILING_BPS
      && forall i :: 0 <= i < |idx.components| ==> idx.components[i].refPriceE9 > 0
  }

  ghost predicate CapsSound(idx: Index) {
    !idx.status.Absent? ==> CheckFees(idx.params).Ok?
  }

  ghost predicate ClockSound(w: World) {
    !w.index.status.Absent? ==> w.index.lastFeeAccrual <= w.clock
  }

  ghost predicate SupplySound(w: World) {
    && (w.index.status.Bootstrapping? ==> w.supply == 0)
    && w.supply == Total(w.wallets, IndexMint)
  }

  ghost predicate Sound(w: World) {
    && TableSound(w.index)
    && CapsSound(w.index)
    && ClockSound(w)
    && AuctionSound(w.index, w.clock)
    && SupplySound(w)
    && Backed(w)
  }

  // ---------------------------------------------------------------------------------------------
  // Backing
  // ---------------------------------------------------------------------------------------------

  /** Units derived from a balance never claim more than the balance. */
  lemma DerivedIsCovered(balance: nat, supply: nat)
    requires supply > 0
    ensures balance * UNIT_SCALE / supply * supply <= balance * UNIT_SCALE
  {
    FloorBounds(balance * UNIT_SCALE, supply);
  }

  lemma InStepIsBacked(cs: seq<Component>, w: World)
    requires InStep(cs, w) || w.supply == 0
    ensures Backed(w)
  {
    forall i | 0 <= i < |w.vaults|
      ensures w.index.components[i].units * w.supply <= w.vaults[i] * UNIT_SCALE
    {
      if w.supply > 0 {
        DerivedIsCovered(w.vaults[i], w.supply);
      }
    }
  }

  lemma EntryIsBacked(w: World, step: Step)
    requires step.DoIssue? || step.DoRedeem? || step.DoAccrue?
    requires Apply(w, step).Ok?
    ensures Backed(Next(w, step))
  {
    EntryFrame(w, step);
    InStepIsBacked(w.index.components, Next(w, step));
  }

  lemma BidIsBacked(w: World, step: Step)
    requires step.DoBid? && Apply(w, step).Ok?
    ensures Backed(Next(w, step))
  {
    BidFrame(w, step);
    InStepIsBacked(w.index.components, Next(w, step));
  }

  lemma BackedKept(w: World, step: Step)
    requires Backed(w) && SupplySound(w) && TableSound(w.index)
    ensures Backed(Next(w, step))
  {
    var w' := Next(w, step);
    if Apply(w, step).Ok? {
      match step
      case DoIssue(_, _, _, _) => EntryIsBacked(w, step);
      case DoRedeem(_, _, _, _) => EntryIsBacked(w, step);
      case DoAccrue => EntryIsBacked(w, step);
      case DoBid(_, _, _, _, _, _) => BidIsBacked(w, step);
      case DoPropose(_, _, _, _) => ProposeFrame(w, step);
      case DoEnd(_) => EndFrame(w, step); EndIsBacked(w, w');
      case Burn(_, amount) => SmallerSupplyIsBacked(w, w');
      case _ =>
    }
  }

  lemma EndIsBacked(w: World, w': World)
    requires |w'.vaults| == |w.vaults| && w'.vaults == w.vaults && w'.supply == w.supply
    requires forall i :: 0 <= i < |w.vaults| ==>
      w'.index.components[i].units == DerivedUnits(w.index.components[i].units, w.vaults[i], w.supply)
    ensures Backed(w')
  {
    forall i | 0 <= i < |w'.vaults|
      ensures w'.index.components[i].units * w'.supply <= w'.vaults[i] * UNIT_SCALE
    {
      if w.supply > 0 {
        DerivedIsCovered(w.vaults[i], w.supply);
      }
    }
  }

  lemma SmallerSupplyIsBacked(w: World, w': World)
    requires Backed(w)
    requires w'.index == w.index && w'.vaults == w.vaults && w'.supply <= w.supply
    ensures Backed(w')
  {
    forall i | 0 <= i < |w'.vaults|
      ensures w'.index.components[i].units * w'.supply <= w'.vaults[i] * UNIT_SCALE
    {
      MulMonotone(w'.supply, w.supply, w.index.components[i].units);
      assert w.index.components[i].units * w.supply <= w.vaults[i] * UNIT_SCALE;
    }
  }

  // ---------------------------------------------------------------------------------------------
  // Table, caps, clock and auction
  // ---------------------------------------------------------------------------------------------

  lemma TableKept(w: World, step: Step)
    requires TableSound(w.index)
    ensures TableSound(Next(w, step).index)
  {
    if !step.DoInit? && !step.DoAddComponent? {
      TableFrame(w, step);
      StatusFrame(w, step);
    }
  }

  lemma CapsKept(w: World, step: Step)
    requires CapsSound(w.index)
    ensures CapsSound(Next(w, step).index)
  {
    if !step.DoInit? && !step.DoSetParams? {
      ParamsFrame(w, step);
      StatusFrame(w, step);
    }
  }

  lemma ClockKept(w: World, step: Step)
    requires ClockSound(w)
    ensures ClockSound(Next(w, step))
  {
    ClockFrame(w, step);
    StatusFrame(w, step);
  }

  lemma AuctionKept(w: World, step: Step)
    requires AuctionSound(w.index, w.clock) && CapsSound(w.index)
    ensures AuctionSound(Next(w, step).index, Next(w, step).clock)
  {
    ClockFrame(w, step);
    StatusFrame(w, step);
    if w.index.status.Sealed() && Apply(w, step).Ok? {
      if step.DoPropose? {
        ProposeFrame(w, step);
      } else if step.DoEnd? {
        EndFrame(w, step);
      } else {
        TableFrame(w, step);
      }
    } else if Apply(w, step).Ok? {
      TableFrame(w, step);
      UnsealedFrame(w, step);
    }
  }

  /** Before the index is sealed no auction runs and nobody enters or leaves. */
  lemma UnsealedFrame(w: World, step: Step)
    requires !w.index.status.Sealed() && Apply(w, step).Ok?
    requires !w.index.rebalance.active
    ensures !Apply(w, step).value.index.rebalance.active
    ensures step.DoInit? || Apply(w, step).value.supply <= w.supply
  {
    match step
    case DoIssue(_, _, _, _) => EntryFrame(w, step);
    case DoRedeem(_, _, _, _) => EntryFrame(w, step);
    case DoAccrue => EntryFrame(w, step);
    case DoBid(_, _, _, _, _, _) => BidFrame(w, step);
    case DoPropose(_, _, _, _) => ProposeFrame(w, step);
    case _ =>
  }

  // ---------------------------------------------------------------------------------------------
  // The ledger
  // ---------------------------------------------------------------------------------------------

  /** What the vault of a mint holds, if the index has one. */
  ghost function VaultOf(w: World, mint: Key): nat {
    var slot := FindComponent(w.index.components, mint);
    if slot.Some? then w.vaults[slot.value] else 0
  }

  /** All the tokens of a component mint, inside the fund and outside it. */
  ghost function Circulating(w: World, mint: Key): nat {
    Total(w.wallets, ComponentMint(mint)) + VaultOf(w, mint)
  }

  /** Tokens held anywhere are neither made nor destroyed, except index tokens with their supply. */
  ghost predicate Conserves(w: World, w': World, mint: Key) {
    && Circulating(w', mint) == Circulating(w, mint)
    && w'.supply - Total(w'.wallets, IndexMint) == w.supply - Total(w.wallets, IndexMint)
  }

  lemma SlotOfMint(cs: seq<Component>, i: nat)
    requires Distinct(cs) && i < |cs|
    ensures FindComponent(cs, cs[i].mint) == Some(i)
  {
    var slot := FindComponent(cs, cs[i].mint);
    assert slot.Some? && cs[slot.value].mint == cs[i].mint;
  }

  lemma SameVaultOf(w: World, w': World, mint: Key)
    requires Distinct(w.index.components) && SameTokens(w.index.components, w'.index.components)
    requires w'.vaults == w.vaults
    ensures VaultOf(w', mint) == VaultOf(w, mint)
  {
    var slot := FindComponent(w.index.components, mint);
    if slot.Some? {
      SlotOfMint(w.index.components, slot.value);
      SlotOfMint(w'.index.components, slot.value);
    } else {
      assert FindComponent(w'.index.components, mint).None?;
    }
  }

  lemma VaultOfUpdate(w: World, w': World, i: nat, mint: Key)
    requires Distinct(w.index.components) && i < |w.vaults|
    requires w'.index == w.index && |w'.vaults| == |w.vaults|
    requires forall j :: 0 <= j < |w.vaults| && j != i ==> w'.vaults[j] == w.vaults[j]
    ensures VaultOf(w', mint) - VaultOf(w, mint)
         == (if w.index.components[i].mint == mint then w'.vaults[i] as int - w.vaults[i] else 0)
  {
    SlotOfMint(w.index.components, i);
  }

  /** A transfer between a user and a vault moves tokens and makes or destroys none. */
  lemma TransferFromUserConserves(w: World, user: Key, i: nat, amount: uint64, mint: Key)
    requires Distinct(w.index.components) && i < |w.vaults|
    requires TransferFromUser(w, user, i, amount).Ok?
    ensures Conserves(w, TransferFromUser(w, user, i, amount).value, mint)
  {
    var w' := TransferFromUser(w, user, i, amount).value;
    if amount > 0 {
      var a := ComponentAccount(w, user, i);
      TotalUpdate(w.wallets, a, Balance(w.wallets, a) - amount, ComponentMint(mint));
      TotalUpdate(w.wallets, a, Balance(w.wallets, a) - amount, IndexMint);
      VaultOfUpdate(w, w', i, mint);
    }
  }

  lemma TransferFromVaultConserves(w: World, i: nat, to: Key, amount: uint64, mint: Key)
    requires Distinct(w.index.components) && i < |w.vaults|
    requires TransferFromVault(w, i, to, amount).Ok?
    ensures Conserves(w, TransferFromVault(w, i, to, amount).value, mint)
  {
    var w' := TransferFromVault(w, i, to, amount).value;
    if amount > 0 {
      var a := ComponentAccount(w, to, i);
      TotalUpdate(w.wallets, a, Balance(w.wallets, a) + amount, ComponentMint(mint));
      TotalUpdate(w.wallets, a, Balance(w.wallets, a) + amount, IndexMint);
      VaultOfUpdate(w, w', i, mint);
    }
  }

  /** Minting index tokens raises the supply and the total in wallets alike. */
  lemma MintConserves(w: World, to: Key, amount: uint64, mint: Key)
    requires MintIndexTokens(w, to, amount).Ok?
    ensures Conserves(w, MintIndexTokens(w, to, amount).value, mint)
  {
    if amount > 0 {
      var a := Account(to, IndexMint);
      TotalUpdate(w.wallets, a, Balance(w.wallets, a) + amount, ComponentMint(mint));
      TotalUpdate(w.wallets, a, Balance(w.wallets, a) + amount, IndexMint);
    }
  }

  lemma BurnConserves(w: World, from: Key, amount: uint64, mint: Key)
    requires BurnIndexTokens(w, from, amount).Ok?
    ensures Conserves(w, BurnIndexTokens(w, from, amount).value, mint)
  {
    var a := Account(from, IndexMint);
    TotalUpdate(w.wallets, a, Balance(w.wallets, a) - amount, ComponentMint(mint));
    TotalUpdate(w.wallets, a, Balance(w.wallets, a) - amount, IndexMint);
  }

  lemma SendConserves(w: World, sender: Account, to: Key, amount: uint64, mint: Key)
    requires SendTokens(w, sender, to, amount).Ok?
    ensures Conserves(w, SendTokens(w, sender, to, amount).value, mint)
  {
    var debited := Debit(w.wallets, sender, amount).value;
    var a := Account(to, sender.mint);
    forall m: Mint ensures Total(SendTokens(w, sender, to, amount).value.wallets, m) == Total(w.wallets, m) {
      TotalUpdate(w.wallets, sender, Balance(w.wallets, sender) - amount, m);
      TotalUpdate(debited, a, Balance(debited, a) + amount, m);
    }
  }

  lemma {:induction false} DeliverConserves(w: World, user: Key, maxIn: seq<uint64>, gross: uint64, i: nat, mint: Key)
    requires |maxIn| == |w.vaults| && i <= |w.vaults| && Distinct(w.index.components)
    requires DeliverFrom(w, user, maxIn, gross, i).Ok?
    ensures Conserves(w, DeliverFrom(w, user, maxIn, gross, i).value, mint)
    decreases |w.vaults| - i
  {
    if i == |w.vaults| {
    } else {
      var required := UnitsIn(w.index.components[i].units, gross).value;
      TransferFromUserConserves(w, user, i, required, mint);
      DeliverConserves(TransferFromUser(w, user, i, required).value, user, maxIn, gross, i + 1, mint);
    }
  }

  lemma {:induction false} PayOutConserves(w: World, to: Key, minOut: seq<uint64>, net: uint64, i: nat, mint: Key)
    requires |minOut| == |w.vaults| && i <= |w.vaults| && Distinct(w.index.components)
    requires PayOutFrom(w, to, minOut, net, i).Ok?
    ensures Conserves(w, PayOutFrom(w, to, minOut, net, i).value, mint)
    decreases |w.vaults| - i
  {
    if i == |w.vaults| {
    } else {
      var payout := UnitsOut(w.index.components[i].units, net).value;
      TransferFromVaultConserves(w, i, to, payout, mint);
      PayOutConserves(TransferFromVault(w, i, to, payout).value, to, minOut, net, i + 1, mint);
    }
  }

  lemma SyncConserves(w: World, mint: Key)
    requires Distinct(w.index.components) && SyncUnits(w).Ok?
    ensures Conserves(w, SyncUnits(w).value, mint)
    ensures Distinct(SyncUnits(w).value.index.components)
  {
    SyncUnitsEffect(w);
    SameVaultOf(w, SyncUnits(w).value, mint);
  }

  lemma SettledConserves(w: World, mint: Key)
    requires Distinct(w.index.components) && Settled(w).Ok?
    ensures Conserves(w, Settled(w).value, mint) && Distinct(Settled(w).value.index.components)
  {
    var moved := w.(index := w.index.(lastFeeAccrual := w.clock));
    SameVaultOf(w, moved, mint);
    MintConserves(moved, w.index.feeRecipient, FeeOwed(w).value, mint);
    SyncConserves(Accrue(w).value, mint);
    SyncUnitsEffect(Accrue(w).value);
  }

  lemma MintsAndSyncConserve(w: World, to: Key, amount: uint64, collector: Key, fee: uint64, minted: World,
                             charged: World,
                             w': World, mint: Key)
    requires MintIndexTokens(w, to, amount) == Ok(minted) && MintIndexTokens(minted, collector, fee) == Ok(charged)
    requires SyncUnits(charged) == Ok(w') && Distinct(w.index.components)
    ensures Conserves(w, w', mint)
  {
    MintConserves(w, to, amount, mint);
    MintConserves(minted, collector, fee, mint);
    SyncConserves(charged, mint);
    SyncUnitsEffect(charged);
  }

  lemma IssueConserves(w: World, user: Key, to: Key, amount: uint64, fee: uint64, maxIn: seq<uint64>, mint: Key)
    requires Distinct(w.index.components) && |maxIn| == |w.vaults| && amount + fee <= U64_MAX
    requires IssueCharged(w, user, to, amount, fee, maxIn).Ok?
    ensures Conserves(w, IssueCharged(w, user, to, amount, fee, maxIn).value, mint)
  {
    DeliverConserves(w, user, maxIn, amount + fee, 0, mint);
    DeliverEffect(w, user, maxIn, amount + fee, 0);
    var delivered := DeliverFrom(w, user, maxIn, amount + fee, 0).value;
    var minted := MintIndexTokens(delivered, to, amount).value;
    var charged := MintIndexTokens(minted, w.index.feeRecipient, fee).value;
    MintsAndSyncConserve(delivered, to, amount, w.index.feeRecipient, fee, minted, charged, SyncUnits(charged).value,
                         mint);
  }

  lemma PayAndSyncConserve(w: World, to: Key, minOut: seq<uint64>, net: uint64, paid: World, w': World, mint: Key)
    requires Distinct(w.index.components) && |minOut| == |w.vaults|
    requires PayOutFrom(w, to, minOut, net, 0) == Ok(paid) && SyncUnits(paid) == Ok(w')
    ensures Conserves(w, w', mint)
  {
    PayOutConserves(w, to, minOut, net, 0, mint);
    PayOutEffect(w, to, minOut, net, 0);
    SyncConserves(paid, mint);
    SyncUnitsEffect(paid);
  }

  lemma RedeemConserves(w: World, user: Key, to: Key, amount: uint64, fee: uint64, minOut: seq<uint64>, mint: Key)
    requires Distinct(w.index.components) && |minOut| == |w.vaults| && fee <= amount
    requires RedeemCharged(w, user, to, amount, fee, minOut).Ok?
    ensures Conserves(w, RedeemCharged(w, user, to, amount, fee, minOut).value, mint)
  {
    BurnConserves(w, user, amount, mint);
    var burned := BurnIndexTokens(w, user, amount).value;
    MintConserves(burned, w.index.feeRecipient, fee, mint);
    var charged := MintIndexTokens(burned, w.index.feeRecipient, fee).value;
    assert charged.index == w.index && charged.vaults == w.vaults;
    var paid := PayOutFrom(charged, to, minOut, amount - fee, 0).value;
    PayAndSyncConserve(charged, to, minOut, amount - fee, paid, SyncUnits(paid).value, mint);
  }

  lemma FillBidConserves(w: World, bidder: Key, to: Key, s: nat, b: nat, sellAmount: uint64, buyAmount: uint64,
                         mint: Key)
    requires Distinct(w.index.components) && s < |w.vaults| && b < |w.vaults|
    requires FillBid(w, bidder, to, s, b, sellAmount, buyAmount).Ok?
    ensures Conserves(w, FillBid(w, bidder, to, s, b, sellAmount, buyAmount).value, mint)
  {
    TransferFromUserConserves(w, bidder, b, buyAmount, mint);
    var paid := TransferFromUser(w, bidder, b, buyAmount).value;
    TransferFromVaultConserves(paid, s, to, sellAmount, mint);
    var filled := TransferFromVault(paid, s, to, sellAmount).value;
    SyncConserves(filled, mint);
    SyncUnitsEffect(filled);
  }

  lemma EntryConserves(w: World, step: Step, mint: Key)
    requires Distinct(w.index.components)
    requires step.DoIssue? || step.DoRedeem? || step.DoAccrue?
    requires Apply(w, step).Ok?
    ensures Conserves(w, Apply(w, step).value, mint)
  {
    EntryFrame(w, step);
    SettledConserves(w, mint);
    SettledEffect(w);
    match step
    case DoIssue(user, to, amount, maxIn) =>
      IssueConserves(Settled(w).value, user, to, amount, FlatFee(amount, w.index.params.issueFeeBps).value, maxIn,
                     mint);
    case DoRedeem(user, to, amount, minOut) =>
      RedeemConserves(Settled(w).value, user, to, amount, FlatFee(amount, w.index.params.redeemFeeBps).value, minOut,
                      mint);
    case DoAccrue =>
  }

  lemma BidConserves(w: World, step: Step, mint: Key)
    requires Distinct(w.index.components)
    requires step.DoBid? && Apply(w, step).Ok?
    ensures Conserves(w, Apply(w, step).value, mint)
  {
    var buyAmount := BidLegs(w, step.sell, step.buy, step.sellAmount, step.maxBuyAmount, BidPremium(w).value).value;
    FillBidConserves(w, step.bidder, step.to, step.sell, step.buy, step.sellAmount, buyAmount, mint);
  }

  /** No step makes or destroys component tokens, and index tokens are made and destroyed only with
      the supply that counts them. */
  lemma StepConserves(w: World, step: Step, mint: Key)
    requires TableSound(w.index)
    ensures Conserves(w, Next(w, step), mint)
  {
    if Apply(w, step).Ok? {
      var w' := Next(w, step);
      match step
      case DoIssue(_, _, _, _) => EntryConserves(w, step, mint);
      case DoRedeem(_, _, _, _) => EntryConserves(w, step, mint);
      case DoAccrue => EntryConserves(w, step, mint);
      case DoBid(_, _, _, _, _, _) => BidConserves(w, step, mint);
      case DoPropose(_, _, _, _) => ProposeFrame(w, step); SameVaultOf(w, w', mint);
      case DoEnd(_) => EndFrame(w, step); SameVaultOf(w, w', mint);
      case DoAddComponent(_, _, _, _) => TableKept(w, step); AddConserves(w, w', mint);
      case Donate(from, slot, amount) => TransferFromUserConserves(w, from, slot, amount, mint);
      case Burn(holder, amount) => BurnConserves(w, holder, amount, mint);
      case Send(sender, to, amount) => SendConserves(w, sender, to, amount, mint);
      case DoInit(_, _, _, _) =>
      case _ => SameVaultOf(w, w', mint);
    }
  }

  lemma AddConserves(w: World, w': World, mint: Key)
    requires TableSound(w.index) && TableSound(w'.index)
    requires |w'.vaults| == |w.vaults| + 1 && w'.vaults == w.vaults + [0]
    requires w'.index.components[..|w.vaults|] == w.index.components && w'.wallets == w.wallets
    ensures Circulating(w', mint) == Circulating(w, mint)
  {
    var slot := FindComponent(w'.index.components, mint);
    if slot.Some? && slot.value < |w.vaults| {
      SlotOfMint(w.index.components, slot.value);
    } else {
      assert forall i :: 0 <= i < |w.vaults| ==> w.index.components[i] == w'.index.components[i];
      if FindComponent(w.index.components, mint).Some? {
        SlotOfMint(w'.index.components, FindComponent(w.index.components, mint).value);
      }
    }
  }

  // ---------------------------------------------------------------------------------------------
  // Every run
  // ---------------------------------------------------------------------------------------------

  lemma SupplyKept(w: World, step: Step)
    requires TableSound(w.index) && SupplySound(w) && !(!w.index.status.Sealed() && w.index.rebalance.active)
    ensures SupplySound(Next(w, step))
  {
    StepConserves(w, step, 0);
    StatusFrame(w, step);
    if w.index.status.Bootstrapping? && Apply(w, step).Ok? {
      UnsealedFrame(w, step);
    }
  }

  lemma SoundKept(w: World, step: Step)
    requires Sound(w)
    ensures Sound(Next(w, step))
  {
    TableKept(w, step);
    CapsKept(w, step);
    ClockKept(w, step);
    AuctionKept(w, step);
    SupplyKept(w, step);
    BackedKept(w, step);
  }

  lemma SoundOn(worlds: seq<World>, steps: seq<Step>, k: nat)
    requires Run(worlds, steps) && k < |steps| && Sound(worlds[k])
    ensures Sound(worlds[k + 1])
  {
    assert Follows(worlds, steps, k);
    SoundKept(worlds[k], steps[k]);
  }

  /** Every world a run goes through from a sound one is sound: vaults cover their units, index
      tokens in wallets add up to the supply, parameters and auctions stay inside the hard caps. */
  lemma {:induction false} SoundAlways(worlds: seq<World>, steps: seq<Step>, k: nat)
    requires Run(worlds, steps) && Sound(worlds[0]) && k <= |steps|
    ensures Sound(worlds[k])
  {
    if k == 0 {
    } else {
      SoundAlways(worlds, steps, k - 1);
      SoundOn(worlds, steps, k - 1);
    }
  }

  /** The same from the moment before the index exists. */
  lemma ReachableIsSound(worlds: seq<World>, steps: seq<Step>, k: nat)
    requires Run(worlds, steps) && Genesis(worlds[0]) && k <= |steps|
    ensures Sound(worlds[k])
  {
    SoundAlways(worlds, steps, k);
  }

  /** Component tokens are conserved over any run. */
  lemma {:induction false} ConservedAlways(worlds: seq<World>, steps: seq<Step>, k: nat, mint: Key)
    requires Run(worlds, steps) && Sound(worlds[0]) && k <= |steps|
    ensures Circulating(worlds[k], mint) == Circulating(worlds[0], mint)
  {
    if k == 0 {
    } else {
      ConservedAlways(worlds, steps, k - 1, mint);
      SoundAlways(worlds, steps, k - 1);
      assert Follows(worlds, steps, k - 1);
      StepConserves(worlds[k - 1], steps[k - 1], mint);
    }
  }
}
