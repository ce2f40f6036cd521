/** What the fund promises to those who enter, wait and leave. */
module Holders {
  import opened Words
  import opened Division
  import opened FixedPoint
  import opened Shares
  import opened Accounts
  import opened Handlers
  import opened Effects
  import opened Runs
  import opened Frames
  import opened Invariant

  /** Fee on an issue or a redemption, in index tokens. */
  function FeeOn(amount: nat, feeBps: nat): nat {
    CeilWithin(amount * feeBps, BPS);
    CeilDiv(amount * feeBps, BPS)
  }

  /** Index tokens an issue of `amount` mints, fee included. */
  function Gross(w: World, amount: uint64): nat {
    amount + FeeOn(amount, w.index.params.issueFeeBps)
  }

  /** Index tokens a redemption of `amount` takes out of circulation, fee excluded. */
  function Net(w: World, amount: uint64): int {
    amount - FeeOn(amount, w.index.params.redeemFeeBps)
  }

  /** What slot `i` costs an issue that mints `gross`, the fee owed being minted first. */
  function Cost(w: World, gross: nat, i: nat): nat
    requires i < |w.vaults|
  {
    SlotCost(w.index.components[i].units, w.vaults[i], PricedSupply(w), gross)
  }

  /** What slot `i` pays a redemption that retires `net`, the fee owed being minted first. */
  function Proceeds(w: World, net: nat, i: nat): nat
    requires i < |w.vaults|
  {
    SlotProceeds(w.index.components[i].units, w.vaults[i], PricedSupply(w), net)
  }

  /** Units slot `i` is worth right now. */
  function HeldUnits(w: World, i: nat): nat
    requires i < |w.vaults|
  {
    DerivedUnits(w.index.components[i].units, w.vaults[i], w.supply)
  }

  // ---------------------------------------------------------------------------------------------
  // What an issue and a redemption move
  // ---------------------------------------------------------------------------------------------

  lemma FlatFeeIsFeeOn(amount: uint64, feeBps: uint16)
    requires FlatFee(amount, feeBps).Ok?
    ensures FlatFee(amount, feeBps).value == FeeOn(amount, feeBps)
  {
    FlatFeeValue(amount, feeBps);
  }

  /** An issue is a settling followed by a charge. */
  lemma IssueStages(w: World, user: Key, to: Key, amount: uint64, maxIn: seq<uint64>)
    returns (settled: World, fee: uint64)
    requires Issue(w, user, to, amount, maxIn).Ok?
    ensures |maxIn| == |w.vaults| == |settled.vaults| && 0 < amount && amount + fee <= U64_MAX
    ensures Settled(w) == Ok(settled) && fee == FeeOn(amount, w.index.params.issueFeeBps)
    ensures IssueCharged(settled, user, to, amount, fee, maxIn) == Issue(w, user, to, amount, maxIn)
  {
    SettledEffect(w);
    settled, fee := Settled(w).value, FlatFee(amount, w.index.params.issueFeeBps).value;
    FlatFeeIsFeeOn(amount, w.index.params.issueFeeBps);
  }

  /** A redemption is a settling followed by a charge. */
  lemma RedeemStages(w: World, user: Key, to: Key, amount: uint64, minOut: seq<uint64>)
    returns (settled: World, fee: uint64)
    requires Redeem(w, user, to, amount, minOut).Ok?
    ensures |minOut| == |w.vaults| == |settled.vaults| && 0 < amount <= settled.supply && fee <= amount
    ensures Settled(w) == Ok(settled) && fee == FeeOn(amount, w.index.params.redeemFeeBps)
    ensures RedeemCharged(settled, user, to, amount, fee, minOut) == Redeem(w, user, to, amount, minOut)
  {
    SettledEffect(w);
    settled, fee := Settled(w).value, FlatFee(amount, w.index.params.redeemFeeBps).value;
    FlatFeeIsFeeOn(amount, w.index.params.redeemFeeBps);
  }

  /** What settling changes: the fee is minted, and each slot stands at the units it is priced at. */
  lemma SettledPrices(w: World, settled: World, i: nat)
    requires Settled(w) == Ok(settled) && i < |w.vaults|
    ensures FeeOwed(w).Ok? && settled.supply == PricedSupply(w) && settled.vaults == w.vaults
    ensures settled.index.components[i] == w.index.components[i].(units := settled.index.components[i].units)
    ensures settled.index.components[i].units == PricedUnits(w, i)
  {
    SettledEffect(w);
    assert Resynced(w.index.components[i], settled.index.components[i], settled.vaults[i], settled.supply);
  }

  /** Slot `i` across an issue that mints `gross` on top of the fee owed. */
  ghost predicate IssuedSlot(w: World, w': World, gross: nat, i: nat)
    requires i < |w.vaults|
  {
    && |w'.vaults| == |w.vaults|
    && FeeOwed(w).Ok?
    && w'.supply == PricedSupply(w) + gross
    && w'.vaults[i] == w.vaults[i] + Cost(w, gross, i)
    && w'.index.components[i].units == DerivedUnits(PricedUnits(w, i), w'.vaults[i], w'.supply)
    && w'.clock == w'.index.lastFeeAccrual == w.clock && w'.index.params == w.index.params
  }

  /** Slot `i` across a redemption that retires `net` after the fee owed is minted. */
  ghost predicate RedeemedSlot(w: World, w': World, net: nat, i: nat)
    requires i < |w.vaults|
  {
    && |w'.vaults| == |w.vaults|
    && FeeOwed(w).Ok?
    && 0 < PricedSupply(w) && net <= PricedSupply(w)
    && w'.supply == PricedSupply(w) - net
    && w'.vaults[i] == w.vaults[i] - Proceeds(w, net, i)
    && w'.index.components[i].units == DerivedUnits(PricedUnits(w, i), w'.vaults[i], w'.supply)
    && w'.clock == w'.index.lastFeeAccrual == w.clock && w'.index.params == w.index.params
  }

  lemma ChargedSlot(w: World, settled: World, w': World, gross: uint64, i: nat)
    requires Settled(w) == Ok(settled) && i < |w.vaults| == |w'.vaults|
    requires |settled.vaults| == |w.vaults| && w'.clock == settled.clock
    requires w'.index.lastFeeAccrual == settled.index.lastFeeAccrual && w'.index.params == settled.index.params
    requires w'.supply == settled.supply + gross && w'.vaults[i] == settled.vaults[i] + Charge(settled, gross, i)
    requires Resynced(settled.index.components[i], w'.index.components[i], w'.vaults[i], w'.supply)
    ensures IssuedSlot(w, w', gross, i) && Charge(settled, gross, i) == Cost(w, gross, i)
  {
    SettledEffect(w);
    SettledPrices(w, settled, i);
  }

  lemma RetiredSlot(w: World, settled: World, w': World, net: uint64, i: nat)
    requires Settled(w) == Ok(settled) && i < |w.vaults| == |w'.vaults|
    requires |settled.vaults| == |w.vaults| && w'.clock == settled.clock && 0 < settled.supply
    requires w'.index.lastFeeAccrual == settled.index.lastFeeAccrual && w'.index.params == settled.index.params
    requires w'.supply == settled.supply - net && w'.vaults[i] == settled.vaults[i] - Payout(settled, net, i)
    requires Resynced(settled.index.components[i], w'.index.components[i], w'.vaults[i], w'.supply)
    ensures RedeemedSlot(w, w', net, i) && Payout(settled, net, i) == Proceeds(w, net, i)
  {
    SettledEffect(w);
    SettledPrices(w, settled, i);
  }

  lemma StagedIssueMoves(w: World, settled: World, user: Key, to: Key, amount: uint64, fee: uint64, maxIn: seq<uint64>,
                         w': World, i: nat)
    requires Settled(w) == Ok(settled) && i < |w.vaults| == |settled.vaults| == |maxIn|
    requires 0 < amount && amount + fee <= U64_MAX && fee == FeeOn(amount, w.index.params.issueFeeBps)
    requires IssueCharged(settled, user, to, amount, fee, maxIn) == Ok(w')
    ensures IssuedSlot(w, w', Gross(w, amount), i) && Cost(w, Gross(w, amount), i) <= maxIn[i]
  {
    IssueChargedSlot(settled, user, to, amount, fee, maxIn, w', i);
    ChargedSlot(w, settled, w', amount + fee, i);
  }

  lemma StagedRedeemMoves(w: World, settled: World, user: Key, to: Key, amount: uint64, fee: uint64, net: uint64,
                          minOut: seq<uint64>, w': World, i: nat)
    requires Settled(w) == Ok(settled) && i < |w.vaults| == |settled.vaults| == |minOut|
    requires net + fee == amount && 0 < settled.supply
    requires RedeemCharged(settled, user, to, amount, fee, minOut) == Ok(w')
    ensures RedeemedSlot(w, w', net, i) && minOut[i] <= Proceeds(w, net, i)
  {
    RedeemChargedSlot(settled, user, to, amount, fee, net, minOut, w', i);
    RetiredSlot(w, settled, w', net, i);
  }

  /** An accepted issue adds the cost of each slot, within the bound given for it, to its vault, and
      mints the gross amount. */
  lemma IssueMoves(w: World, user: Key, to: Key, amount: uint64, maxIn: seq<uint64>, w': World, i: nat)
    requires i < |w.vaults| && Issue(w, user, to, amount, maxIn) == Ok(w')
    ensures |maxIn| == |w.vaults| && 0 < amount && Cost(w, Gross(w, amount), i) <= maxIn[i]
    ensures IssuedSlot(w, w', Gross(w, amount), i)
  {
    var settled, fee := IssueStages(w, user, to, amount, maxIn);
    StagedIssueMoves(w, settled, user, to, amount, fee, maxIn, w', i);
  }

  /** An accepted redemption takes the proceeds of each slot, no less than the bound given for it,
      out of its vault, and retires the net amount. */
  lemma RedeemMoves(w: World, user: Key, to: Key, amount: uint64, minOut: seq<uint64>, w': World, i: nat)
    requires i < |w.vaults| && Redeem(w, user, to, amount, minOut) == Ok(w')
    ensures |minOut| == |w.vaults| && 0 < amount && 0 <= Net(w, amount) <= amount
      && minOut[i] <= Proceeds(w, Net(w, amount), i)
    ensures RedeemedSlot(w, w', Net(w, amount), i)
  {
    var settled, fee := RedeemStages(w, user, to, amount, minOut);
    StagedRedeemMoves(w, settled, user, to, amount, fee, Net(w, amount), minOut, w', i);
  }

  /** In an issue the user's component accounts pay the charges, the recipient gains the tokens and the
      fee recipient the fees; every other account stands. */
  lemma IssueTradesWithUser(w: World, user: Key, to: Key, amount: uint64, maxIn: seq<uint64>, w': World, a: Account)
    requires Distinct(w.index.components) && Issue(w, user, to, amount, maxIn) == Ok(w')
    ensures |w'.vaults| == |w.vaults|
    ensures Balance(w'.wallets, a) as int - Balance(w.wallets, a)
         == Minted(a, to, amount)
           + Minted(a, w.index.feeRecipient, FeeOwed(w).value + FeeOn(amount, w.index.params.issueFeeBps))
              + (if a.holder == user then VaultFall(w, w', SlotOf(w, a)) else 0)
  {
    var settled, fee := IssueStages(w, user, to, amount, maxIn);
    SettledEffect(w);
    IssueChargedEffect(settled, user, to, amount, fee, maxIn, w');
    SameSlots(w, settled, a);
    IssueChargedAccounts(settled, user, to, amount, fee, maxIn, w', a);
  }

  /** What leaves the vault of a slot; nothing where there is no slot. */
  function VaultFall(w: World, w': World, slot: Option<nat>): int
    requires |w'.vaults| == |w.vaults| && (slot.Some? ==> slot.value < |w.vaults|)
  {
    if slot.Some? then w.vaults[slot.value] as int - w'.vaults[slot.value] else 0
  }

  lemma SameSlots(w: World, settled: World, a: Account)
    requires Settled(w) == Ok(settled) && Distinct(w.index.components)
    ensures |settled.vaults| == |w.vaults| && Distinct(settled.index.components) && SlotOf(settled, a) == SlotOf(w, a)
  {
    SettledEffect(w);
    assert forall i :: 0 <= i < |w.vaults| ==> settled.index.components[i].mint == w.index.components[i].mint by {
      forall i | 0 <= i < |w.vaults| ensures settled.index.components[i].mint == w.index.components[i].mint {
        SettledPrices(w, settled, i);
      }
    }
    var slot, slot' := SlotOf(w, a), SlotOf(settled, a);
    if slot.Some? && slot'.Some? {
      assert w.index.components[slot.value].mint == w.index.components[slot'.value].mint;
    }
  }

  /** In a redemption the recipient's component accounts are paid, the caller loses the tokens redeemed
      and the fee recipient gains the fees; every other account stands. */
  lemma RedeemTradesWithRecipient(w: World, user: Key, to: Key, amount: uint64, minOut: seq<uint64>, w': World,
                                  a: Account)
    requires Distinct(w.index.components) && Redeem(w, user, to, amount, minOut) == Ok(w')
    ensures |w'.vaults| == |w.vaults|
    ensures Balance(w'.wallets, a) as int - Balance(w.wallets, a)
         == Minted(a, w.index.feeRecipient, FeeOwed(w).value + FeeOn(amount, w.index.params.redeemFeeBps))
              - Minted(a, user, amount) + (if a.holder == to then VaultFall(w, w', SlotOf(w, a)) else 0)
  {
    var settled, fee := RedeemStages(w, user, to, amount, minOut);
    SettledEffect(w);
    RedeemChargedEffect(settled, user, to, amount, fee, minOut, w');
    SameSlots(w, settled, a);
    RedeemChargedAccounts(settled, user, to, amount, fee, minOut, w', a);
  }

  /** A fee clock that stands at the present owes nothing. */
  lemma NothingOwedNow(w: World)
    requires w.index.lastFeeAccrual == w.clock
    ensures FeeOwed(w) == Ok(0) && PricedSupply(w) == w.supply
  {
  }

  // ---------------------------------------------------------------------------------------------
  // Round trips
  // ---------------------------------------------------------------------------------------------

  lemma SlotsRoundTrip(w: World, w': World, w'': World, gross: nat, net: nat, i: nat)
    requires i < |w.vaults| && |w'.vaults| == |w.vaults|
    requires 0 < gross && net <= gross
    requires w.supply > 0 || w.vaults[i] == 0
    requires IssuedSlot(w, w', gross, i) && RedeemedSlot(w', w'', net, i)
    ensures w''.vaults[i] >= w.vaults[i]
  {
    NothingOwedNow(w');
    SlotRoundTrip(w.index.components[i].units, w'.index.components[i].units, w.vaults[i], PricedSupply(w), gross, net);
  }

  /** Issue, then redeem at the same instant no more than was issued: no vault ends lower than it
      began, whatever the fees, provided somebody already held tokens or the vault was empty. */
  lemma RoundTripNeverProfits(w: World, user: Key, to: Key, amount: uint64, maxIn: seq<uint64>, w': World,
                              user': Key, to': Key, amount': uint64, minOut: seq<uint64>, w'': World, i: nat)
    requires i < |w.vaults| && amount' <= amount
    requires w.supply > 0 || w.vaults[i] == 0
    requires Issue(w, user, to, amount, maxIn) == Ok(w')
    requires Redeem(w', user', to', amount', minOut) == Ok(w'')
    ensures |w'.vaults| == |w''.vaults| == |w.vaults|
    ensures w''.vaults[i] >= w.vaults[i]
  {
    IssueMoves(w, user, to, amount, maxIn, w', i);
    RedeemMoves(w', user', to', amount', minOut, w'', i);
    SlotsRoundTrip(w, w', w'', Gross(w, amount), Net(w', amount'), i);
  }

  /** So the component account of whoever makes the round trip never ends higher. */
  lemma RoundTripNeverEnriches(w: World, user: Key, amount: uint64, maxIn: seq<uint64>, w': World,
                               amount': uint64, minOut: seq<uint64>, w'': World, i: nat)
    requires Distinct(w.index.components) && i < |w.vaults| && amount' <= amount
    requires w.supply > 0 || w.vaults[i] == 0
    requires Issue(w, user, user, amount, maxIn) == Ok(w')
    requires Redeem(w', user, user, amount', minOut) == Ok(w'')
    ensures Balance(w''.wallets, ComponentAccount(w, user, i)) <= Balance(w.wallets, ComponentAccount(w, user, i))
  {
    RoundTripNeverProfits(w, user, user, amount, maxIn, w', user, user, amount', minOut, w'', i);
    EntryFrame(w, DoIssue(user, user, amount, maxIn));
    var a := ComponentAccount(w, user, i);
    assert a == ComponentAccount(w', user, i);
    SlotOfMint(w.index.components, i);
    SlotOfMint(w'.index.components, i);
    IssueTradesWithUser(w, user, user, amount, maxIn, w', a);
    RedeemTradesWithRecipient(w', user, user, amount', minOut, w'', a);
  }

  lemma SlotsInKind(w: World, w': World, w'': World, n: nat, i: nat)
    requires 0 < n && i < |w.vaults| && |w'.vaults| == |w.vaults|
    requires PricedSupply(w) > 0 || w.vaults[i] == 0
    requires IssuedSlot(w, w', n * UNIT_SCALE, i) && RedeemedSlot(w', w'', n * UNIT_SCALE, i)
    ensures w'.vaults[i] == w.vaults[i] + n * PricedUnits(w, i) && w''.vaults[i] == w.vaults[i]
    ensures w'.index.components[i].units == PricedUnits(w, i)
  {
    NothingOwedNow(w');
    WholeTokensCost(w.index.components[i].units, w.vaults[i], PricedSupply(w), n);
    WholeTokensKeepUnits(w.index.components[i].units, PricedUnits(w, i), w.vaults[i], PricedSupply(w), n);
    WholeTokensKeepUnits(w.index.components[i].units, w'.index.components[i].units, w.vaults[i], PricedSupply(w), n);
    WholeTokensCost(w'.index.components[i].units, w'.vaults[i], w'.supply, n);
  }

  /** In and out in kind: minting `n` whole tokens, fee included, takes exactly `n` times the units of
      every slot and leaves the units as they were, and retiring as many at the same instant, fee
      excluded, gives every vault's gain back to the last base unit. */
  lemma WholeTokensInKind(w: World, user: Key, to: Key, amount: uint64, maxIn: seq<uint64>, w': World,
                          user': Key, to': Key, amount': uint64, minOut: seq<uint64>, w'': World, n: nat, i: nat)
    requires i < |w.vaults| && (w.supply > 0 || w.vaults[i] == 0)
    requires Issue(w, user, to, amount, maxIn) == Ok(w') && Gross(w, amount) == n * UNIT_SCALE
    requires Redeem(w', user', to', amount', minOut) == Ok(w'') && Net(w', amount') == n * UNIT_SCALE
    ensures |w'.vaults| == |w''.vaults| == |w.vaults|
    ensures w'.vaults[i] == w.vaults[i] + n * PricedUnits(w, i) && w''.vaults[i] == w.vaults[i]
    ensures w'.index.components[i].units == PricedUnits(w, i)
  {
    IssueMoves(w, user, to, amount, maxIn, w', i);
    RedeemMoves(w', user', to', amount', minOut, w'', i);
    SlotsInKind(w, w', w'', n, i);
  }

  // ---------------------------------------------------------------------------------------------
  // Waiting
  // ---------------------------------------------------------------------------------------------

  /** A step that neither fills a bid nor mints a fee, and does not burn the last index token. */
  ghost predicate Quiet(w: World, step: Step) {
    && !step.DoBid?
    && (step.DoIssue? || step.DoRedeem? || step.DoAccrue? ==> FeeOwed(w) == Ok(0))
    && (step.Burn? ==> step.amount < w.supply)
  }

  lemma IssuedSlotKeepsUnits(w: World, w': World, gross: nat, i: nat)
    requires i < |w.vaults| && IssuedSlot(w, w', gross, i) && FeeOwed(w) == Ok(0) && gross > 0
    ensures HeldUnits(w', i) >= HeldUnits(w, i)
  {
    EntryRaisesUnits(w.index.components[i].units, w'.index.components[i].units, w.vaults[i], w.supply, gross);
  }

  lemma RedeemedSlotKeepsUnits(w: World, w': World, net: nat, i: nat)
    requires i < |w.vaults| && RedeemedSlot(w, w', net, i) && FeeOwed(w) == Ok(0)
    ensures HeldUnits(w', i) >= HeldUnits(w, i)
  {
    ExitKeepsUnits(w.index.components[i].units, w'.index.components[i].units, w.vaults[i], w.supply, net);
  }

  lemma QuietStepKeepsUnits(w: World, step: Step, i: nat)
    requires w.index.status.Sealed() && Quiet(w, step) && i < |w.vaults|
    ensures |Next(w, step).vaults| == |w.vaults| && HeldUnits(Next(w, step), i) >= HeldUnits(w, i)
  {
    VaultFrame(w, step, i);
    var w' := Next(w, step);
    if Apply(w, step).Ok? {
      match step
      case DoIssue(user, to, amount, maxIn) =>
        IssueMoves(w, user, to, amount, maxIn, w', i);
        IssuedSlotKeepsUnits(w, w', Gross(w, amount), i);
      case DoRedeem(user, to, amount, minOut) =>
        RedeemMoves(w, user, to, amount, minOut, w', i);
        RedeemedSlotKeepsUnits(w, w', Net(w, amount), i);
      case DoAccrue => SettledPrices(w, w', i);
      case DoPropose(_, _, _, _) => ProposeFrame(w, step);
      case DoEnd(_) => EndFrame(w, step);
      case Donate(_, _, _) => DonationKeepsUnits(w, w', i);
      case Burn(_, _) => FloorAntitone(w.vaults[i] * UNIT_SCALE, w'.supply, w.supply);
      case _ =>
    }
  }

  lemma DonationKeepsUnits(w: World, w': World, i: nat)
    requires |w'.vaults| == |w.vaults| && i < |w.vaults|
    requires w'.index == w.index && w'.supply == w.supply && w'.vaults[i] >= w.vaults[i]
    ensures HeldUnits(w', i) >= HeldUnits(w, i)
  {
    if w.supply > 0 {
      FloorMonotone(w.vaults[i] * UNIT_SCALE, w'.vaults[i] * UNIT_SCALE, w.supply);
    }
  }

  /** Along any run without bids and without minted fees, the units behind each token never fall. */
  lemma {:induction false} WaitingKeepsUnits(worlds: seq<World>, steps: seq<Step>, k: nat, i: nat)
    requires Run(worlds, steps) && worlds[0].index.status.Sealed() && k <= |steps| && i < |worlds[0].vaults|
    requires forall j :: 0 <= j < k ==> Quiet(worlds[j], steps[j])
    ensures worlds[k].index.status.Sealed() && |worlds[k].vaults| == |worlds[0].vaults|
    ensures HeldUnits(worlds[k], i) >= HeldUnits(worlds[0], i)
  {
    if k == 0 {
    } else {
      WaitingKeepsUnits(worlds, steps, k - 1, i);
      assert Follows(worlds, steps, k - 1);
      QuietStepKeepsUnits(worlds[k - 1], steps[k - 1], i);
      StatusFrame(worlds[k - 1], steps[k - 1]);
    }
  }

  lemma BetterUnitsPayMore(w: World, early: World, w': World, late: World, net: nat, i: nat)
    requires i < |w.vaults| && |w'.vaults| == |w.vaults|
    requires RedeemedSlot(w, early, net, i) && RedeemedSlot(w', late, net, i)
    requires FeeOwed(w) == Ok(0) && FeeOwed(w') == Ok(0) && HeldUnits(w', i) >= HeldUnits(w, i)
    ensures w.vaults[i] as int - early.vaults[i] <= w'.vaults[i] as int - late.vaults[i]
  {
    ProceedsMonotone(w.index.components[i].units, w.vaults[i], w.supply,
                     w'.index.components[i].units, w'.vaults[i], w'.supply, net);
  }

  /** A holder who waits through any number of others' entries and exits is paid at least what
      leaving first would have paid, while no fee falls due and the redemption fee stands. */
  lemma WaitingNeverCosts(worlds: seq<World>, steps: seq<Step>, k: nat, user: Key, to: Key, amount: uint64,
                          minOut: seq<uint64>, early: World, late: World, i: nat)
    requires Run(worlds, steps) && k <= |steps| && i < |worlds[0].vaults|
    requires forall j :: 0 <= j < k ==> Quiet(worlds[j], steps[j])
    requires worlds[k].index.params.redeemFeeBps == worlds[0].index.params.redeemFeeBps
    requires FeeOwed(worlds[0]) == Ok(0) && FeeOwed(worlds[k]) == Ok(0)
    requires Redeem(worlds[0], user, to, amount, minOut) == Ok(early)
    requires Redeem(worlds[k], user, to, amount, minOut) == Ok(late)
    ensures |early.vaults| == |late.vaults| == |worlds[k].vaults| == |worlds[0].vaults|
    ensures worlds[0].vaults[i] as int - early.vaults[i] <= worlds[k].vaults[i] as int - late.vaults[i]
  {
    EntryFrame(worlds[0], DoRedeem(user, to, amount, minOut));
    WaitingKeepsUnits(worlds, steps, k, i);
    LaterRedeemPaysMore(worlds[0], worlds[k], user, to, amount, minOut, early, late, i);
  }

  lemma LaterRedeemPaysMore(w: World, w': World, user: Key, to: Key, amount: uint64, minOut: seq<uint64>,
                            early: World, late: World, i: nat)
    requires i < |w.vaults| && |w'.vaults| == |w.vaults|
    requires w'.index.params.redeemFeeBps == w.index.params.redeemFeeBps
    requires FeeOwed(w) == Ok(0) && FeeOwed(w') == Ok(0) && HeldUnits(w', i) >= HeldUnits(w, i)
    requires Redeem(w, user, to, amount, minOut) == Ok(early) && Redeem(w', user, to, amount, minOut) == Ok(late)
    ensures |early.vaults| == |late.vaults| == |w.vaults|
    ensures w.vaults[i] as int - early.vaults[i] <= w'.vaults[i] as int - late.vaults[i]
  {
    RedeemMoves(w, user, to, amount, minOut, early, i);
    RedeemMoves(w', user, to, amount, minOut, late, i);
    BetterUnitsPayMore(w, early, w', late, Net(w, amount), i);
  }

  // ---------------------------------------------------------------------------------------------
  // Splitting an entry
  // ---------------------------------------------------------------------------------------------

  /** The fee on a sum is at most the sum of the fees. */
  lemma FeesAdd(a: nat, b: nat, feeBps: nat)
    ensures FeeOn(a + b, feeBps) <= FeeOn(a, feeBps) + FeeOn(b, feeBps)
  {
    assert (a + b) * feeBps == a * feeBps + b * feeBps;
    CeilSubadditive(a * feeBps, b * feeBps, BPS);
  }

  /** Slot `i` and the supply of `v` hold at least what an issue of `amount` would leave there. */
  ghost predicate ChargedAtLeast(w: World, v: World, amount: uint64, i: nat)
    requires i < |w.vaults|
  {
    && |v.vaults| == |w.vaults|
    && v.vaults[i] >= w.vaults[i] + Cost(w, Gross(w, amount), i)
    && v.supply >= PricedSupply(w) + Gross(w, amount)
  }

  /** Any single issue of `amount` that is accepted in `w`, whatever bounds it carries, leaves no more
      in vault `i`, and mints no more index tokens, than there are in `v`. */
  ghost predicate NoSingleIssueTakesMore(w: World, user: Key, to: Key, amount: uint64, v: World, i: nat) {
    forall maxIn: seq<uint64> :: Issue(w, user, to, amount, maxIn).Ok? ==>
      var whole := Issue(w, user, to, amount, maxIn).value;
      && i < |whole.vaults| == |v.vaults|
      && whole.vaults[i] <= v.vaults[i]
      && whole.supply <= v.supply
  }

  lemma SingleIssueTakesNoMore(w: World, user: Key, to: Key, amount: uint64, v: World, i: nat)
    requires i < |w.vaults| && ChargedAtLeast(w, v, amount, i)
    ensures NoSingleIssueTakesMore(w, user, to, amount, v, i)
  {
    forall maxIn: seq<uint64> | Issue(w, user, to, amount, maxIn).Ok?
      ensures var whole := Issue(w, user, to, amount, maxIn).value;
        i < |whole.vaults| == |v.vaults| && whole.vaults[i] <= v.vaults[i] && whole.supply <= v.supply
    {
      IssueMoves(w, user, to, amount, maxIn, Issue(w, user, to, amount, maxIn).value, i);
    }
  }

  lemma SlotsSplit(w: World, first: World, split: World, a: uint64, b: uint64, i: nat)
    requires i < |w.vaults| && |first.vaults| == |w.vaults| && 0 < a && a + b <= U64_MAX
    requires IssuedSlot(w, first, Gross(w, a), i) && IssuedSlot(first, split, Gross(first, b), i)
    ensures ChargedAtLeast(w, split, a + b, i)
  {
    NothingOwedNow(first);
    FeesAdd(a, b, w.index.params.issueFeeBps);
    SplitCost(w.index.components[i].units, first.index.components[i].units, w.vaults[i], PricedSupply(w),
              Gross(w, a), Gross(first, b), Gross(w, a + b));
  }

  /** Splitting an issue in two at one instant never gets cheaper, in any component or in fees: the
      two parts leave in every vault, and mint in all, at least what one issue of the sum costs, so at
      least what any such issue would leave (`SingleIssueTakesNoMore`). */
  lemma SplittingNeverCheaper(w: World, user: Key, to: Key, a: uint64, b: uint64, maxA: seq<uint64>, maxB: seq<uint64>,
                              first: World, split: World, i: nat)
    requires i < |w.vaults| && a + b <= U64_MAX
    requires Issue(w, user, to, a, maxA) == Ok(first) && Issue(first, user, to, b, maxB) == Ok(split)
    ensures ChargedAtLeast(w, split, a + b, i)
  {
    IssueMoves(w, user, to, a, maxA, first, i);
    IssueMoves(first, user, to, b, maxB, split, i);
    SlotsSplit(w, first, split, a, b, i);
  }
}
