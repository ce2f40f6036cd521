/** When a redemption goes through. */
module Exits {
  import opened Words
  import opened Division
  import opened FixedPoint
  import opened Shares
  import opened Accounts
  import opened Tokens
  import opened Handlers
  import opened Effects
  import opened Invariant
  import opened Holders

  /** The component mints obey the token program: what circulates of each fits a word. */
  ghost predicate MintsFit(w: World) {
    forall i :: 0 <= i < |w.vaults| ==> Circulating(w, w.index.components[i].mint) <= U64_MAX
  }

  /** Index tokens in the hands of `user` once the fee owed has been minted. */
  function HeldAfterFee(w: World, user: Key): nat {
    Balance(w.wallets, Account(user, IndexMint))
      + if FeeOwed(w).Ok? && user == w.index.feeRecipient then FeeOwed(w).value else 0
  }

  /** Every unit count a sync derives before an exit of `net`, and after it, fits its word. */
  ghost predicate UnitsFit(w: World, net: nat) {
    forall i :: 0 <= i < |w.vaults| ==>
      && PricedUnits(w, i) <= U64_MAX
      && UnitsAfterExit(w, net, i) <= U64_MAX
  }

  /** The proceeds of every slot meet the bound given for it. */
  ghost predicate ProceedsMeet(w: World, minOut: seq<uint64>, net: nat)
    requires |minOut| == |w.vaults|
  {
    forall i :: 0 <= i < |w.vaults| ==> minOut[i] <= Proceeds(w, net, i)
  }

  /** The recipient's accounts have room for the proceeds of every slot. */
  ghost predicate RoomToReceive(w: World, to: Key, net: nat) {
    forall i :: 0 <= i < |w.vaults| ==>
      Balance(w.wallets, ComponentAccount(w, to, i)) + Proceeds(w, net, i) <= U64_MAX
  }

  /** Units of slot `i` after an exit of `net`. */
  function UnitsAfterExit(w: World, net: nat, i: nat): nat
    requires i < |w.vaults|
  {
    if net < PricedSupply(w) && Proceeds(w, net, i) <= w.vaults[i]
    then DerivedUnits(0, w.vaults[i] - Proceeds(w, net, i), PricedSupply(w) - net)
    else 0
  }

  // ---------------------------------------------------------------------------------------------
  // Stage by stage
  // ---------------------------------------------------------------------------------------------

  /** The fee is accrued exactly when it fits: no account holds more than the supply. */
  lemma AccrualSucceedsExactly(w: World)
    requires w.supply == Total(w.wallets, IndexMint)
    ensures Accrue(w).Ok? <==> FeeFits(w)
    ensures FeeFits(w) ==> FeeOwed(w) == Ok(FeeDue(w)) && PricedSupply(w) == w.supply + FeeDue(w)
  {
    FeeOwedExactly(w);
    BalanceWithinTotal(w.wallets, Account(w.index.feeRecipient, IndexMint));
  }

  lemma SettlingSucceedsExactly(w: World)
    requires w.supply == Total(w.wallets, IndexMint)
    ensures Settled(w).Ok? <==> FeeFits(w) && forall i :: 0 <= i < |w.vaults| ==> PricedUnits(w, i) <= U64_MAX
  {
    AccrualSucceedsExactly(w);
    if Accrue(w).Ok? {
      var accrued := Accrue(w).value;
      AccrueEffect(w);
      SyncUnitsEffect(accrued);
      assert forall i :: 0 <= i < |w.vaults| ==>
        PricedUnits(w, i) == DerivedUnits(accrued.index.components[i].units, accrued.vaults[i], accrued.supply);
    }
  }

  lemma FeeWithin(amount: uint64, feeBps: uint16)
    requires feeBps <= MAX_MINT_REDEEM_FEE_BPS
    ensures FlatFee(amount, feeBps).Ok? && FeeOn(amount, feeBps) <= amount
    ensures FlatFee(amount, feeBps).value == FeeOn(amount, feeBps)
  {
    MulMonotone(feeBps, BPS, amount);
    CeilAtMost(amount, amount * feeBps, BPS);
    FlatFeeValue(amount, feeBps);
  }

  /** Burning what is held and minting the fee back never fails. */
  lemma RetireSucceedsExactly(w: World, user: Key, amount: uint64, fee: uint64)
    requires w.supply == Total(w.wallets, IndexMint) && fee <= amount <= w.supply
    ensures BurnIndexTokens(w, user, amount).Ok? <==> amount <= Balance(w.wallets, Account(user, IndexMint))
    ensures BurnIndexTokens(w, user, amount).Ok? ==>
      MintIndexTokens(BurnIndexTokens(w, user, amount).value, w.index.feeRecipient, fee).Ok?
  {
    if BurnIndexTokens(w, user, amount).Ok? {
      var burned := BurnIndexTokens(w, user, amount).value;
      BurnConserves(w, user, amount, 0);
      BalanceWithinTotal(burned.wallets, Account(w.index.feeRecipient, IndexMint));
    }
  }

  /** What a recipient holds and a vault can pay fit a word together. */
  lemma RoomForPayout(w: World, to: Key, i: nat)
    requires Distinct(w.index.components) && MintsFit(w) && i < |w.vaults|
    ensures Balance(w.wallets, ComponentAccount(w, to, i)) + w.vaults[i] <= U64_MAX
  {
    SlotOfMint(w.index.components, i);
    BalanceWithinTotal(w.wallets, ComponentAccount(w, to, i));
    assert Circulating(w, w.index.components[i].mint) <= U64_MAX;
  }

  /** Each payout of `net` at the stored units meets its bound. */
  ghost predicate BoundsMet(w: World, minOut: seq<uint64>, net: uint64)
    requires |minOut| == |w.vaults|
  {
    forall i :: 0 <= i < |w.vaults| ==> minOut[i] <= Payout(w, net, i)
  }

  /** Each vault covers its payout of `net` at the stored units. */
  ghost predicate Covers(w: World, net: uint64) {
    forall i :: 0 <= i < |w.vaults| ==> Payout(w, net, i) <= w.vaults[i]
  }

  /** The units derived from what the payouts of `net` leave, at a supply of `rest`, fit their word. */
  ghost predicate RestFits(w: World, net: uint64, rest: nat)
    requires Covers(w, net)
  {
    forall i :: 0 <= i < |w.vaults| ==>
      DerivedUnits(w.index.components[i].units, w.vaults[i] - Payout(w, net, i), rest) <= U64_MAX
  }

  /** The recipient's accounts have room for each payout of `net` at the stored units. */
  ghost predicate HasRoom(w: World, to: Key, net: uint64) {
    forall i :: 0 <= i < |w.vaults| ==> Balance(w.wallets, ComponentAccount(w, to, i)) + Payout(w, net, i) <= U64_MAX
  }

  /** Paying out, once the tokens are retired. */
  lemma PayingSucceedsExactly(w: World, to: Key, minOut: seq<uint64>, net: uint64)
    requires |minOut| == |w.vaults| && Distinct(w.index.components) && Covers(w, net)
    ensures PayOutFrom(w, to, minOut, net, 0).Ok? <==> BoundsMet(w, minOut, net) && HasRoom(w, to, net)
  {
    if BoundsMet(w, minOut, net) && HasRoom(w, to, net) {
      PayOutSucceeds(w, to, minOut, net, 0);
    }
    if PayOutFrom(w, to, minOut, net, 0).Ok? {
      PayOutEffect(w, to, minOut, net, 0);
      PaidHadRoom(w, to, minOut, net, PayOutFrom(w, to, minOut, net, 0).value);
    }
  }

  lemma PaidHadRoom(w: World, to: Key, minOut: seq<uint64>, net: uint64, paid: World)
    requires |minOut| == |w.vaults| && Distinct(w.index.components)
    requires PayOutFrom(w, to, minOut, net, 0) == Ok(paid)
    ensures HasRoom(w, to, net)
  {
    forall i | 0 <= i < |w.vaults|
      ensures Balance(w.wallets, ComponentAccount(w, to, i)) + Payout(w, net, i) <= U64_MAX
    {
      var a := ComponentAccount(w, to, i);
      PayOutAccounts(w, to, minOut, net, 0, paid, a);
      SlotIsOwn(w, a, i);
    }
  }

  /** The sync that closes a redemption. */
  lemma ClosingSyncSucceedsExactly(w: World, to: Key, minOut: seq<uint64>, net: uint64, paid: World)
    requires |minOut| == |w.vaults| && Covers(w, net)
    requires PayOutFrom(w, to, minOut, net, 0) == Ok(paid)
    ensures SyncUnits(paid).Ok? <==> RestFits(w, net, w.supply)
  {
    PaidOutWorld(w, to, minOut, net, paid);
    SyncUnitsEffect(paid);
  }

  lemma PaidOutWorld(w: World, to: Key, minOut: seq<uint64>, net: uint64, paid: World)
    requires |minOut| == |w.vaults| && Covers(w, net)
    requires PayOutFrom(w, to, minOut, net, 0) == Ok(paid)
    ensures |paid.vaults| == |w.vaults| && paid.index == w.index && paid.supply == w.supply
    ensures forall i :: 0 <= i < |w.vaults| ==> paid.vaults[i] == w.vaults[i] - Payout(w, net, i)
  {
    PayOutEffect(w, to, minOut, net, 0);
  }

  /** Two worlds agree on table, vaults and component accounts. */
  ghost predicate SamePurses(w: World, v: World) {
    && v.index == w.index && v.vaults == w.vaults
    && forall a: Account :: a.mint != IndexMint ==> Balance(v.wallets, a) == Balance(w.wallets, a)
  }

  lemma RetiredWorld(w: World, user: Key, amount: uint64, fee: uint64, burned: World, charged: World)
    requires fee <= amount <= w.supply
    requires BurnIndexTokens(w, user, amount) == Ok(burned)
    requires MintIndexTokens(burned, w.index.feeRecipient, fee) == Ok(charged)
    ensures SamePurses(w, charged) && charged.supply == w.supply - (amount - fee)
  {
  }

  /** Payouts, their bounds and their room look at the table, the vaults and component accounts only. */
  lemma SamePayouts(w: World, charged: World, to: Key, net: uint64, minOut: seq<uint64>, rest: nat)
    requires SamePurses(w, charged) && |minOut| == |w.vaults| && Covers(w, net)
    ensures Covers(charged, net) && (BoundsMet(charged, minOut, net) <==> BoundsMet(w, minOut, net))
    ensures HasRoom(charged, to, net) <==> HasRoom(w, to, net)
    ensures RestFits(charged, net, rest) <==> RestFits(w, net, rest)
  {
    forall i | 0 <= i < |w.vaults|
      ensures Payout(charged, net, i) == Payout(w, net, i)
      ensures ComponentAccount(charged, to, i) == ComponentAccount(w, to, i)
      ensures Balance(charged.wallets, ComponentAccount(charged, to, i))
        == Balance(w.wallets, ComponentAccount(w, to, i))
    {
    }
  }

  /** The payouts and the closing sync of a redemption whose tokens are retired. */
  lemma RetiredRedeemSucceedsExactly(w: World, charged: World, to: Key, net: uint64, minOut: seq<uint64>)
    requires |minOut| == |w.vaults| && Distinct(w.index.components) && Covers(w, net) && net <= w.supply
    requires SamePurses(w, charged) && charged.supply == w.supply - net
    ensures PayOutFrom(charged, to, minOut, net, 0).Ok? && SyncUnits(PayOutFrom(charged, to, minOut, net, 0).value).Ok?
       <==> BoundsMet(w, minOut, net) && HasRoom(w, to, net) && RestFits(w, net, w.supply - net)
  {
    SamePayouts(w, charged, to, net, minOut, charged.supply);
    PayingSucceedsExactly(charged, to, minOut, net);
    var paid := PayOutFrom(charged, to, minOut, net, 0);
    if paid.Ok? {
      ClosingSyncSucceedsExactly(charged, to, minOut, net, paid.value);
    }
  }

  /** A redemption in a settled world. */
  lemma ChargedRedeemSucceedsExactly(w: World, user: Key, to: Key, amount: uint64, fee: uint64, net: uint64,
                                     minOut: seq<uint64>)
    requires |minOut| == |w.vaults| && Distinct(w.index.components) && Covers(w, net)
    requires w.supply == Total(w.wallets, IndexMint) && net + fee == amount <= w.supply
    ensures RedeemCharged(w, user, to, amount, fee, minOut).Ok? <==>
      && amount <= Balance(w.wallets, Account(user, IndexMint))
      && BoundsMet(w, minOut, net)
      && HasRoom(w, to, net)
      && RestFits(w, net, w.supply - net)
  {
    RetireSucceedsExactly(w, user, amount, fee);
    if BurnIndexTokens(w, user, amount).Ok? {
      var burned := BurnIndexTokens(w, user, amount).value;
      var charged := MintIndexTokens(burned, w.index.feeRecipient, fee).value;
      RetiredWorld(w, user, amount, fee, burned, charged);
      RetiredRedeemSucceedsExactly(w, charged, to, net, minOut);
    }
  }

  /** What the settled world inherits from a sound one. */
  lemma SettledWorld(w: World, settled: World, user: Key)
    requires Sound(w) && Settled(w) == Ok(settled)
    ensures |settled.vaults| == |w.vaults| && Distinct(settled.index.components)
    ensures settled.supply == Total(settled.wallets, IndexMint) == PricedSupply(w)
    ensures settled.vaults == w.vaults && settled.index.params == w.index.params
    ensures Balance(settled.wallets, Account(user, IndexMint)) == HeldAfterFee(w, user)
  {
    SettledEffect(w);
    SettledConserves(w, 0);
    SameSlots(w, settled, Account(0, IndexMint));
  }

  // ---------------------------------------------------------------------------------------------
  // The whole instruction
  // ---------------------------------------------------------------------------------------------

  /** Any part of the supply is covered by every vault, at the units it is priced at. */
  lemma PayoutIsCovered(w: World, net: nat, i: nat)
    requires i < |w.vaults| && 0 < PricedSupply(w) && net <= PricedSupply(w)
    ensures Proceeds(w, net, i) <= w.vaults[i]
  {
    ExitKeepsUnits(w.index.components[i].units, 0, w.vaults[i], PricedSupply(w), net);
  }

  /** One slot of the settled world pays what the instruction is priced at. */
  lemma SettledPayout(w: World, settled: World, to: Key, net: uint64, i: nat)
    requires Settled(w) == Ok(settled) && i < |w.vaults| == |settled.vaults|
    requires 0 < PricedSupply(w) && net <= PricedSupply(w)
    ensures Payout(settled, net, i) == Proceeds(w, net, i) <= settled.vaults[i]
    ensures Balance(settled.wallets, ComponentAccount(settled, to, i)) == Balance(w.wallets, ComponentAccount(w, to, i))
    ensures DerivedUnits(settled.index.components[i].units, settled.vaults[i] - Payout(settled, net, i),
                         settled.supply - net) <= U64_MAX
       <==> UnitsAfterExit(w, net, i) <= U64_MAX
    ensures PricedUnits(w, i) <= U64_MAX
  {
    SettledEffect(w);
    SettledPrices(w, settled, i);
    PayoutIsCovered(w, net, i);
  }

  /** The settled world pays what the instruction is priced at, */
  lemma SettledPayouts(w: World, settled: World, to: Key, net: uint64, minOut: seq<uint64>)
    requires Settled(w) == Ok(settled) && |minOut| == |w.vaults| == |settled.vaults|
    requires 0 < PricedSupply(w) && net <= PricedSupply(w)
    ensures Covers(settled, net)
    ensures BoundsMet(settled, minOut, net) <==> ProceedsMeet(w, minOut, net)
    ensures HasRoom(settled, to, net) <==> RoomToReceive(w, to, net)
  {
    forall i | 0 <= i < |w.vaults|
      ensures Payout(settled, net, i) == Proceeds(w, net, i) <= settled.vaults[i]
      ensures Balance(settled.wallets, ComponentAccount(settled, to, i))
           == Balance(w.wallets, ComponentAccount(w, to, i))
    {
      SettledPayout(w, settled, to, net, i);
    }
  }

  /** and leaves the units that the instruction leaves. */
  lemma SettledRest(w: World, settled: World, to: Key, net: uint64)
    requires Settled(w) == Ok(settled) && |w.vaults| == |settled.vaults| && Covers(settled, net)
    requires 0 < PricedSupply(w) && net <= PricedSupply(w) && settled.supply == PricedSupply(w)
    ensures RestFits(settled, net, settled.supply - net) <==> UnitsFit(w, net)
  {
    forall i | 0 <= i < |w.vaults|
      ensures DerivedUnits(settled.index.components[i].units, settled.vaults[i] - Payout(settled, net, i),
                           settled.supply - net) <= U64_MAX
         <==> UnitsAfterExit(w, net, i) <= U64_MAX
      ensures PricedUnits(w, i) <= U64_MAX
    {
      SettledPayout(w, settled, to, net, i);
    }
  }

  lemma SettledRedeemSucceedsExactly(w: World, settled: World, user: Key, to: Key, amount: uint64, fee: uint64,
                                     net: uint64, minOut: seq<uint64>)
    requires Sound(w) && |minOut| == |w.vaults| == |settled.vaults|
    requires Settled(w) == Ok(settled) && 0 < amount <= PricedSupply(w) && net + fee == amount
    ensures RedeemCharged(settled, user, to, amount, fee, minOut).Ok? <==>
      && amount <= HeldAfterFee(w, user)
      && UnitsFit(w, net) && ProceedsMeet(w, minOut, net) && RoomToReceive(w, to, net)
  {
    SettledWorld(w, settled, user);
    SettledPayouts(w, settled, to, net, minOut);
    SettledRest(w, settled, to, net);
    ChargedRedeemSucceedsExactly(settled, user, to, amount, fee, net, minOut);
  }

  lemma RedeemNeedsSettling(w: World, user: Key, to: Key, amount: uint64, minOut: seq<uint64>)
    requires !(w.index.status.Sealed() && |minOut| == |w.vaults| && Settled(w).Ok? && 0 < amount <= PricedSupply(w))
    ensures Redeem(w, user, to, amount, minOut).Err?
  {
    if Accrue(w).Ok? {
      AccrueEffect(w);
    }
  }

  /** Once the fee is minted and the units are in step, only holding, bounds, room and unit words decide. */
  lemma RedeemOfSettled(w: World, settled: World, user: Key, to: Key, amount: uint64, minOut: seq<uint64>)
    requires Sound(w) && w.index.status.Sealed() && |minOut| == |w.vaults|
    requires Settled(w) == Ok(settled) && 0 < amount <= PricedSupply(w)
    ensures 0 <= Net(w, amount)
    ensures Redeem(w, user, to, amount, minOut).Ok? <==>
      && amount <= HeldAfterFee(w, user)
      && UnitsFit(w, Net(w, amount)) && ProceedsMeet(w, minOut, Net(w, amount))
      && RoomToReceive(w, to, Net(w, amount))
  {
    FeeWithin(amount, w.index.params.redeemFeeBps);
    var fee := FlatFee(amount, w.index.params.redeemFeeBps).value;
    SettledWorld(w, settled, user);
    SettledRedeemSucceedsExactly(w, settled, user, to, amount, fee, Net(w, amount), minOut);
    RedeemIsStaged(w, settled, user, to, amount, fee, minOut);
  }

  /** Everything a redemption has to meet: a sealed index, paused or not, one bound for each slot, a
      positive amount of at most the supply and the caller's holding, the fee accrued, bounds met, room
      to receive and units that fit. */
  ghost predicate RedeemMeets(w: World, user: Key, to: Key, amount: uint64, minOut: seq<uint64>) {
    && w.index.status.Sealed()
    && |minOut| == |w.vaults|
    && 0 < amount <= PricedSupply(w)
    && FeeFits(w)
    && amount <= HeldAfterFee(w, user)
    && 0 <= Net(w, amount)
    && UnitsFit(w, Net(w, amount))
    && ProceedsMeet(w, minOut, Net(w, amount))
    && RoomToReceive(w, to, Net(w, amount))
  }

  /** In a sound fund a redemption goes through exactly when it meets these: never does it fail because a
      vault is short. */
  lemma RedeemSucceedsExactly(w: World, user: Key, to: Key, amount: uint64, minOut: seq<uint64>)
    requires Sound(w)
    ensures Redeem(w, user, to, amount, minOut).Ok? <==> RedeemMeets(w, user, to, amount, minOut)
  {
    SettlingSucceedsExactly(w);
    if w.index.status.Sealed() && |minOut| == |w.vaults| && Settled(w).Ok? && 0 < amount <= PricedSupply(w) {
      RedeemOfSettled(w, Settled(w).value, user, to, amount, minOut);
    } else {
      RedeemNeedsSettling(w, user, to, amount, minOut);
    }
  }

  /** Where the component mints fit their words, whoever receives has room. */
  lemma MintsLeaveRoom(w: World, to: Key, net: nat)
    requires Sound(w) && MintsFit(w) && 0 < PricedSupply(w) && net <= PricedSupply(w)
    ensures RoomToReceive(w, to, net)
  {
    forall i | 0 <= i < |w.vaults|
      ensures Balance(w.wallets, ComponentAccount(w, to, i)) + Proceeds(w, net, i) <= U64_MAX
    {
      RoomForPayout(w, to, i);
      PayoutIsCovered(w, net, i);
    }
  }

  lemma RedeemIsStaged(w: World, settled: World, user: Key, to: Key, amount: uint64, fee: uint64, minOut: seq<uint64>)
    requires w.index.status.Sealed() && |minOut| == |w.vaults| == |settled.vaults|
    requires Settled(w) == Ok(settled) && 0 < amount <= settled.supply
    requires settled.index.params == w.index.params
    requires FlatFee(amount, w.index.params.redeemFeeBps) == Ok(fee) && fee <= amount
    ensures Redeem(w, user, to, amount, minOut) == RedeemCharged(settled, user, to, amount, fee, minOut)
  {
    SettledEffect(w);
    AccrueEffect(w);
  }

  /** The units an exit leaves behind are at most those before it plus what one token and the whole
      supply can round away, spread over the supply that remains. */
  lemma UnitsAfterExitAreBounded(w: World, net: nat, i: nat)
    requires i < |w.vaults| && net < PricedSupply(w)
    ensures UnitsAfterExit(w, net, i) <= PricedUnits(w, i) + (PricedSupply(w) + UNIT_SCALE) / (PricedSupply(w) - net)
  {
    PayoutIsCovered(w, net, i);
    UnitsAfterExitBound(w.index.components[i].units, 0, w.vaults[i], PricedSupply(w), net);
  }

  /** Room for the units that an exit of `net` can leave behind. */
  ghost predicate RoomForUnits(w: World, net: nat) {
    forall i :: 0 <= i < |w.vaults| ==>
      PricedUnits(w, i)
        + (if net < PricedSupply(w) then (PricedSupply(w) + UNIT_SCALE) / (PricedSupply(w) - net) else 0) <= U64_MAX
  }

  /** So an exit with no slippage bounds is open to any holder whenever the fee can be accrued and
      that explicit bound fits a word, paused or not. */
  lemma ExitIsOpen(w: World, user: Key, to: Key, amount: uint64, minOut: seq<uint64>)
    requires Sound(w) && w.index.status.Sealed() && MintsFit(w) && |minOut| == |w.vaults|
    requires Accrue(w).Ok? && 0 < amount <= PricedSupply(w) && amount <= HeldAfterFee(w, user)
    requires 0 <= Net(w, amount) && RoomForUnits(w, Net(w, amount))
    requires forall i :: 0 <= i < |w.vaults| ==> minOut[i] == 0
    ensures Redeem(w, user, to, amount, minOut).Ok?
  {
    FeeWithin(amount, w.index.params.redeemFeeBps);
    var net := Net(w, amount);
    forall i | 0 <= i < |w.vaults|
      ensures PricedUnits(w, i) <= U64_MAX && UnitsAfterExit(w, net, i) <= U64_MAX
    {
      if net < PricedSupply(w) {
        UnitsAfterExitAreBounded(w, net, i);
        FloorBounds(PricedSupply(w) + UNIT_SCALE, PricedSupply(w) - net);
      }
    }
    MintsLeaveRoom(w, to, net);
    AccrualSucceedsExactly(w);
    RedeemSucceedsExactly(w, user, to, amount, minOut);
  }
}
