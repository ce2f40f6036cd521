/** The loops of the program in closed form: what a walk over the table leaves behind, and when it
    gets to the end. */
module Effects {
  import opened Words
  import opened Division
  import opened FixedPoint
  import opened Accounts
  import opened Tokens
  import opened Handlers
  import opened Shares

  /** A component as a sync leaves it: its units are the derived ones and nothing else has moved. */
  ghost predicate Resynced(c: Component, d: Component, balance: uint64, supply: nat) {
    d == c.(units := d.units) && d.units == DerivedUnits(c.units, balance, supply)
  }

  /** The table of `w` is `cs` brought in step with the vaults of `w`. */
  ghost predicate InStep(cs: seq<Component>, w: World) {
    && |cs| == |w.vaults|
    && forall i :: 0 <= i < |cs| ==> Resynced(cs[i], w.index.components[i], w.vaults[i], w.supply)
  }

  ghost predicate Distinct(cs: seq<Component>) {
    forall i, j :: 0 <= i < j < |cs| ==> cs[i].mint != cs[j].mint
  }

  // ---------------------------------------------------------------------------------------------
  // Syncing units
  // ---------------------------------------------------------------------------------------------

  lemma {:induction false} SyncFromEffect(cs: seq<Component>, balances: seq<uint64>, supply: uint64, i: nat)
    requires |balances| == |cs| && i <= |cs| && supply > 0
    ensures SyncFrom(cs, balances, supply, i).Ok?
       <==> forall j :: i <= j < |cs| ==> DerivedUnits(cs[j].units, balances[j], supply) <= U64_MAX
    ensures SyncFrom(cs, balances, supply, i).Err? ==> SyncFrom(cs, balances, supply, i).error == MathOverflow
    ensures var r := SyncFrom(cs, balances, supply, i);
      r.Ok? ==> forall j :: 0 <= j < |cs| ==>
        r.value[j] == if j < i then cs[j] else cs[j].(units := DerivedUnits(cs[j].units, balances[j], supply))
    decreases |cs| - i
  {
    if i == |cs| {
    } else {
      UnitsFromBalanceValue(balances[i], supply);
      var units := UnitsFromBalance(balances[i], supply);
      if units.Ok? {
        SyncFromEffect(cs[i := cs[i].(units := units.value)], balances, supply, i + 1);
      }
    }
  }

  /** A sync succeeds exactly when every derived unit count fits its word, and rewrites nothing else. */
  lemma SyncUnitsEffect(w: World)
    ensures SyncUnits(w).Ok?
       <==> forall i :: 0 <= i < |w.vaults| ==>
         DerivedUnits(w.index.components[i].units, w.vaults[i], w.supply) <= U64_MAX
    ensures SyncUnits(w).Err? ==> SyncUnits(w).error == MathOverflow
    ensures SyncUnits(w).Ok? ==>
      var w' := SyncUnits(w).value;
      && w' == w.(index := w.index.(components := w'.index.components))
      && InStep(w.index.components, w')
  {
    if w.supply > 0 {
      SyncFromEffect(w.index.components, w.vaults, w.supply, 0);
    }
  }

  // ---------------------------------------------------------------------------------------------
  // Deliveries and payouts
  // ---------------------------------------------------------------------------------------------

  /** What slot `i` costs for `gross` index tokens at the stored units. */
  function Charge(w: World, gross: uint64, i: nat): nat
    requires i < |w.vaults|
  {
    CeilDiv(w.index.components[i].units * gross, UNIT_SCALE)
  }

  /** What slot `i` pays for `net` index tokens at the stored units. */
  function Payout(w: World, net: uint64, i: nat): nat
    requires i < |w.vaults|
  {
    w.index.components[i].units * net / UNIT_SCALE
  }

  lemma {:induction false} DeliverEffect(w: World, user: Key, maxIn: seq<uint64>, gross: uint64, i: nat)
    requires |maxIn| == |w.vaults| && i <= |w.vaults|
    requires DeliverFrom(w, user, maxIn, gross, i).Ok?
    ensures var w' := DeliverFrom(w, user, maxIn, gross, i).value;
      && w' == w.(vaults := w'.vaults, wallets := w'.wallets)
      && (forall j :: 0 <= j < |w.vaults| ==>
            w'.vaults[j] == w.vaults[j] + (if j < i then 0 else Charge(w, gross, j)))
      && (forall j :: i <= j < |w.vaults| ==> Charge(w, gross, j) <= maxIn[j])
    decreases |w.vaults| - i
  {
    if i == |w.vaults| {
    } else {
      UnitsInValue(w.index.components[i].units, gross);
      var w1 := TransferFromUser(w, user, i, Charge(w, gross, i)).value;
      DeliverEffect(w1, user, maxIn, gross, i + 1);
    }
  }

  lemma {:induction false} PayOutEffect(w: World, to: Key, minOut: seq<uint64>, net: uint64, i: nat)
    requires |minOut| == |w.vaults| && i <= |w.vaults|
    requires PayOutFrom(w, to, minOut, net, i).Ok?
    ensures var w' := PayOutFrom(w, to, minOut, net, i).value;
      && w' == w.(vaults := w'.vaults, wallets := w'.wallets)
      && (forall j :: 0 <= j < |w.vaults| ==>
            w'.vaults[j] == w.vaults[j] - (if j < i then 0 else Payout(w, net, j)))
      && (forall j :: i <= j < |w.vaults| ==> minOut[j] <= Payout(w, net, j))
    decreases |w.vaults| - i
  {
    if i == |w.vaults| {
    } else {
      UnitsOutValue(w.index.components[i].units, net);
      var w1 := TransferFromVault(w, i, to, Payout(w, net, i)).value;
      PayOutEffect(w1, to, minOut, net, i + 1);
    }
  }

  /** The slot of the table whose tokens an account holds. */
  function SlotOf(w: World, a: Account): (slot: Option<nat>)
    ensures slot.Some? ==> slot.value < |w.vaults|
  {
    if a.mint.ComponentMint? then FindComponent(w.index.components, a.mint.id) else None
  }

  /** What a delivery that has reached slot `i` still takes from an account. */
  function ChargeFrom(w: World, user: Key, gross: uint64, a: Account, i: nat): nat {
    var slot := SlotOf(w, a);
    if a.holder == user && slot.Some? && i <= slot.value then Charge(w, gross, slot.value) else 0
  }

  /** What a payout that has reached slot `i` still adds to an account. */
  function PayoutFrom(w: World, to: Key, net: uint64, a: Account, i: nat): nat {
    var slot := SlotOf(w, a);
    if a.holder == to && slot.Some? && i <= slot.value then Payout(w, net, slot.value) else 0
  }

  /** In a table without duplicates an account belongs to slot `i` exactly when it holds its tokens. */
  lemma SlotIsOwn(w: World, a: Account, i: nat)
    requires Distinct(w.index.components) && i < |w.vaults|
    ensures SlotOf(w, a) == Some(i) <==> a.mint == ComponentMint(w.index.components[i].mint)
  {
    var slot := SlotOf(w, a);
    if slot.Some? && slot.value != i {
      assert w.index.components[slot.value].mint != w.index.components[i].mint;
    }
  }

  /** Only the user's component accounts pay for a delivery, each exactly its charge. */
  lemma {:induction false} DeliverAccounts(w: World, user: Key, maxIn: seq<uint64>, gross: uint64, i: nat, w': World,
                                           a: Account)
    requires |maxIn| == |w.vaults| && i <= |w.vaults| && Distinct(w.index.components)
    requires DeliverFrom(w, user, maxIn, gross, i) == Ok(w')
    ensures Balance(w'.wallets, a) == Balance(w.wallets, a) - ChargeFrom(w, user, gross, a, i)
    decreases |w.vaults| - i
  {
    if i == |w.vaults| {
    } else {
      UnitsInValue(w.index.components[i].units, gross);
      var w1 := TransferFromUser(w, user, i, Charge(w, gross, i)).value;
      assert w1.index == w.index && |w1.vaults| == |w.vaults|;
      DeliverAccounts(w1, user, maxIn, gross, i + 1, w', a);
      SlotIsOwn(w, a, i);
    }
  }

  /** Only the recipient's component accounts receive a payout, each exactly its share. */
  lemma {:induction false} PayOutAccounts(w: World, to: Key, minOut: seq<uint64>, net: uint64, i: nat, w': World,
                                          a: Account)
    requires |minOut| == |w.vaults| && i <= |w.vaults| && Distinct(w.index.components)
    requires PayOutFrom(w, to, minOut, net, i) == Ok(w')
    ensures Balance(w'.wallets, a) == Balance(w.wallets, a) + PayoutFrom(w, to, net, a, i)
    decreases |w.vaults| - i
  {
    if i == |w.vaults| {
    } else {
      UnitsOutValue(w.index.components[i].units, net);
      var w1 := TransferFromVault(w, i, to, Payout(w, net, i)).value;
      assert w1.index == w.index && |w1.vaults| == |w.vaults|;
      PayOutAccounts(w1, to, minOut, net, i + 1, w', a);
      SlotIsOwn(w, a, i);
    }
  }

  /** A delivery that fits the slippage bounds, the purse and the vaults goes through. */
  lemma {:induction false} DeliverSucceeds(w: World, user: Key, maxIn: seq<uint64>, gross: uint64, i: nat)
    requires |maxIn| == |w.vaults| && i <= |w.vaults| && Distinct(w.index.components)
    requires forall j :: i <= j < |w.vaults| ==>
      && Charge(w, gross, j) <= maxIn[j]
      && Charge(w, gross, j) <= Balance(w.wallets, ComponentAccount(w, user, j))
      && w.vaults[j] + Charge(w, gross, j) <= U64_MAX
    ensures DeliverFrom(w, user, maxIn, gross, i).Ok?
    decreases |w.vaults| - i
  {
    if i == |w.vaults| {
    } else {
      UnitsInValue(w.index.components[i].units, gross);
      var w1 := TransferFromUser(w, user, i, Charge(w, gross, i)).value;
      forall j | i + 1 <= j < |w1.vaults|
        ensures Charge(w1, gross, j) == Charge(w, gross, j)
        ensures w1.vaults[j] == w.vaults[j]
        ensures Balance(w1.wallets, ComponentAccount(w1, user, j)) == Balance(w.wallets, ComponentAccount(w, user, j))
      {
        assert ComponentAccount(w, user, j) != ComponentAccount(w, user, i);
      }
      DeliverSucceeds(w1, user, maxIn, gross, i + 1);
    }
  }

  /** A payout that the vaults cover and the recipient can hold goes through. */
  lemma {:induction false} PayOutSucceeds(w: World, to: Key, minOut: seq<uint64>, net: uint64, i: nat)
    requires |minOut| == |w.vaults| && i <= |w.vaults| && Distinct(w.index.components)
    requires forall j :: i <= j < |w.vaults| ==>
      && minOut[j] <= Payout(w, net, j) <= w.vaults[j]
      && Balance(w.wallets, ComponentAccount(w, to, j)) + Payout(w, net, j) <= U64_MAX
    ensures PayOutFrom(w, to, minOut, net, i).Ok?
    decreases |w.vaults| - i
  {
    if i == |w.vaults| {
    } else {
      UnitsOutValue(w.index.components[i].units, net);
      var w1 := TransferFromVault(w, i, to, Payout(w, net, i)).value;
      forall j | i + 1 <= j < |w1.vaults|
        ensures Payout(w1, net, j) == Payout(w, net, j)
        ensures w1.vaults[j] == w.vaults[j]
        ensures Balance(w1.wallets, ComponentAccount(w1, to, j)) == Balance(w.wallets, ComponentAccount(w, to, j))
      {
        assert ComponentAccount(w, to, j) != ComponentAccount(w, to, i);
      }
      PayOutSucceeds(w1, to, minOut, net, i + 1);
    }
  }

  // ---------------------------------------------------------------------------------------------
  // Retargeting and settling
  // ---------------------------------------------------------------------------------------------

  lemma {:induction false} RetargetEffect(cs: seq<Component>, targets: seq<uint64>, prices: seq<uint64>, i: nat)
    requires |targets| == |cs| && |prices| == |cs| && i <= |cs|
    ensures forall j :: 0 <= j < |cs| ==>
      RetargetFrom(cs, targets, prices, i)[j]
      == if j < i then cs[j] else cs[j].(refPriceE9 := prices[j], targetUnits := targets[j])
    decreases |cs| - i
  {
    if i == |cs| {
    } else {
      RetargetEffect(cs[i := cs[i].(refPriceE9 := prices[i], targetUnits := targets[i])], targets, prices, i + 1);
    }
  }

  lemma {:induction false} SettleEffect(cs: seq<Component>, i: nat)
    requires i <= |cs|
    ensures forall j :: 0 <= j < |cs| ==>
      SettleFrom(cs, i)[j] == if j < i then cs[j] else cs[j].(targetUnits := cs[j].units)
    decreases |cs| - i
  {
    if i == |cs| {
    } else {
      SettleEffect(cs[i := cs[i].(targetUnits := cs[i].units)], i + 1);
    }
  }

  // ---------------------------------------------------------------------------------------------
  // Instructions
  // ---------------------------------------------------------------------------------------------

  /** An accrual moves the fee clock and grows the supply by what was owed. */
  lemma AccrueEffect(w: World)
    requires Accrue(w).Ok?
    ensures FeeOwed(w).Ok?
    ensures var w' := Accrue(w).value;
      && w' == w.(index := w.index.(lastFeeAccrual := w.clock),
                  supply := w.supply + FeeOwed(w).value, wallets := w'.wallets)
      && forall a {:trigger Balance(w'.wallets, a)} ::
           Balance(w'.wallets, a) == Balance(w.wallets, a)
             + (if a == Account(w.index.feeRecipient, IndexMint) then FeeOwed(w).value else 0)
  {
  }

  /** Basis points times seconds since the fee clock last moved. */
  function TimeDue(w: World): int {
    w.index.params.streamingFeeBps * (w.clock - w.index.lastFeeAccrual)
  }

  /** The fee on `supply` for `due` basis point seconds: that share of the grown supply, rounded down. */
  function FeeFor(supply: nat, due: int): nat {
    if supply > 0 && 0 < due < FEE_DENOMINATOR then
      FloorBounds(supply * due, FEE_DENOMINATOR - due);
      supply * due / (FEE_DENOMINATOR - due)
    else 0
  }

  /** The fee that has fallen due. */
  function FeeDue(w: World): nat {
    FeeFor(w.supply, TimeDue(w))
  }

  /** The fee can be minted: rate and time do not take the whole fund, and the supply has room. */
  predicate FeeFits(w: World) {
    (w.supply > 0 ==> TimeDue(w) < FEE_DENOMINATOR) && w.supply + FeeDue(w) <= U64_MAX
  }

  lemma FeeForTime(supply: uint64, feeBps: uint16, dt: int64)
    ensures var fee, due := StreamingFeeTokens(supply, feeBps, dt), feeBps * dt;
      && (fee.Ok? <==> (supply > 0 ==> due < FEE_DENOMINATOR) && FeeFor(supply, due) <= U64_MAX)
      && (fee.Ok? ==> fee.value == FeeFor(supply, due))
  {
    var due := feeBps * dt;
    if feeBps > 0 && dt <= 0 {
      MulMonotone(dt, 0, feeBps);
    }
    if feeBps > 0 && dt > 0 {
      MulMonotone(1, dt, feeBps);
    }
    if supply > 0 && 0 < due < FEE_DENOMINATOR {
      ProductFits(supply, due);
    }
  }

  /** What the program computes is the fee due: timestamps too far apart for their word owe more than the
      whole fund, or nothing. */
  lemma FeeOwedExactly(w: World)
    ensures FeeOwed(w).Ok? <==> (w.supply > 0 ==> TimeDue(w) < FEE_DENOMINATOR) && FeeDue(w) <= U64_MAX
    ensures FeeOwed(w).Ok? ==> FeeOwed(w).value == FeeDue(w)
  {
    var f, dt, span := w.index.params.streamingFeeBps, SaturatingSub(w.clock, w.index.lastFeeAccrual),
      w.clock - w.index.lastFeeAccrual;
    FeeForTime(w.supply, f, dt);
    if dt < span {
      MulMonotone(dt, span, f);
      assert f > 0 ==> f * dt >= dt by {
        MulMonotone(1, if f > 0 then f else 1, dt);
      }
    } else if dt > span {
      MulMonotone(dt, 0, f);
      MulMonotone(span, 0, f);
    }
  }

  /** Supply an issue or a redemption is priced against: the fee owed is minted first. */
  function PricedSupply(w: World): nat {
    if FeeOwed(w).Ok? then w.supply + FeeOwed(w).value else 0
  }

  /** Units slot `i` is priced at by an issue or a redemption. */
  function PricedUnits(w: World, i: nat): nat
    requires i < |w.vaults|
  {
    DerivedUnits(w.index.components[i].units, w.vaults[i], PricedSupply(w))
  }

  /** The world an issue or a redemption is priced in: fee minted, units in step with the vaults. */
  function Settled(w: World): Result<World> {
    var accrued :- Accrue(w);
    SyncUnits(accrued)
  }

  lemma SettledEffect(w: World)
    requires Settled(w).Ok?
    ensures FeeOwed(w).Ok?
    ensures var w' := Settled(w).value;
      && w' == w.(index := w.index.(lastFeeAccrual := w.clock, components := w'.index.components),
                  supply := PricedSupply(w), wallets := w'.wallets)
      && InStep(w.index.components, w')
      && (forall a {:trigger Balance(w'.wallets, a)} ::
            Balance(w'.wallets, a) == Balance(w.wallets, a)
              + (if a == Account(w.index.feeRecipient, IndexMint) then FeeOwed(w).value else 0))
  {
    AccrueEffect(w);
    SyncUnitsEffect(Accrue(w).value);
  }

  /** An issue of `amount` with `fee` on top, in a settled world. */
  lemma IssueChargedEffect(w: World, user: Key, to: Key, amount: uint64, fee: uint64, maxIn: seq<uint64>, w': World)
    requires |maxIn| == |w.vaults| && amount > 0 && amount + fee <= U64_MAX
    requires IssueCharged(w, user, to, amount, fee, maxIn) == Ok(w')
    ensures w' == w.(index := w.index.(components := w'.index.components),
                     vaults := w'.vaults, supply := w'.supply, wallets := w'.wallets)
    ensures w'.supply == w.supply + amount + fee && |w'.vaults| == |w.vaults|
    ensures forall i :: 0 <= i < |w.vaults| ==> Charge(w, amount + fee, i) <= maxIn[i]
    ensures forall i :: 0 <= i < |w.vaults| ==> w'.vaults[i] == w.vaults[i] + Charge(w, amount + fee, i)
    ensures InStep(w.index.components, w')
  {
    DeliverEffect(w, user, maxIn, amount + fee, 0);
    var delivered := DeliverFrom(w, user, maxIn, amount + fee, 0).value;
    var minted := MintIndexTokens(delivered, to, amount).value;
    assert minted == delivered.(supply := w.supply + amount, wallets := minted.wallets);
    var charged := MintIndexTokens(minted, w.index.feeRecipient, fee).value;
    assert charged == delivered.(supply := w.supply + amount + fee, wallets := charged.wallets);
    SyncUnitsEffect(charged);
  }

  /** An issue, stage by stage. */
  lemma IssueChargedByStages(w: World, user: Key, to: Key, amount: uint64, fee: uint64, maxIn: seq<uint64>,
                             delivered: World, minted: World, charged: World, w': World)
    requires |maxIn| == |w.vaults| && amount + fee <= U64_MAX
    requires DeliverFrom(w, user, maxIn, amount + fee, 0) == Ok(delivered)
    requires MintIndexTokens(delivered, to, amount) == Ok(minted)
    requires MintIndexTokens(minted, w.index.feeRecipient, fee) == Ok(charged) && SyncUnits(charged) == Ok(w')
    ensures IssueCharged(w, user, to, amount, fee, maxIn) == Ok(w')
  {
  }

  lemma IssueByStages(w: World, user: Key, to: Key, amount: uint64, maxIn: seq<uint64>, settled: World, fee: uint64,
                      w': World)
    requires 0 < amount && w.index.status.Live? && |maxIn| == |w.vaults| == |settled.vaults|
    requires Settled(w) == Ok(settled) && settled.index.params == w.index.params
    requires FlatFee(amount, w.index.params.issueFeeBps) == Ok(fee) && amount + fee <= U64_MAX
    requires IssueCharged(settled, user, to, amount, fee, maxIn) == Ok(w')
    ensures Issue(w, user, to, amount, maxIn) == Ok(w')
  {
  }

  /** One slot across an issue, in a settled world. */
  lemma IssueChargedSlot(w: World, user: Key, to: Key, amount: uint64, fee: uint64, maxIn: seq<uint64>, w': World,
                         i: nat)
    requires |maxIn| == |w.vaults| && amount > 0 && amount + fee <= U64_MAX && i < |w.vaults|
    requires IssueCharged(w, user, to, amount, fee, maxIn) == Ok(w')
    ensures |w'.vaults| == |w.vaults| && w'.supply == w.supply + amount + fee && w'.clock == w.clock
    ensures w'.index.lastFeeAccrual == w.index.lastFeeAccrual && w'.index.params == w.index.params
    ensures Charge(w, amount + fee, i) <= maxIn[i] && w'.vaults[i] == w.vaults[i] + Charge(w, amount + fee, i)
    ensures Resynced(w.index.components[i], w'.index.components[i], w'.vaults[i], w'.supply)
  {
    IssueChargedEffect(w, user, to, amount, fee, maxIn, w');
  }

  /** What an account gains from `amount` index tokens minted to `holder`. */
  function Minted(a: Account, holder: Key, amount: nat): nat {
    if a == Account(holder, IndexMint) then amount else 0
  }

  lemma MintCredits(w: World, to: Key, amount: uint64, w': World, a: Account)
    requires MintIndexTokens(w, to, amount) == Ok(w')
    ensures Balance(w'.wallets, a) == Balance(w.wallets, a) + Minted(a, to, amount)
  {
  }

  /** Every token account after an issue: the user's component accounts pay the charges, the recipient's
      index account gains the tokens and the fee recipient's the fee; all others stand. */
  lemma IssueChargedAccounts(w: World, user: Key, to: Key, amount: uint64, fee: uint64, maxIn: seq<uint64>, w': World,
                             a: Account)
    requires |maxIn| == |w.vaults| && amount + fee <= U64_MAX && Distinct(w.index.components)
    requires IssueCharged(w, user, to, amount, fee, maxIn) == Ok(w')
    ensures Balance(w'.wallets, a)
         == Balance(w.wallets, a) as int - ChargeFrom(w, user, amount + fee, a, 0)
              + Minted(a, to, amount) + Minted(a, w.index.feeRecipient, fee)
  {
    var delivered := DeliverFrom(w, user, maxIn, amount + fee, 0).value;
    DeliverAccounts(w, user, maxIn, amount + fee, 0, delivered, a);
    var minted := MintIndexTokens(delivered, to, amount).value;
    MintCredits(delivered, to, amount, minted, a);
    var charged := MintIndexTokens(minted, w.index.feeRecipient, fee).value;
    MintCredits(minted, w.index.feeRecipient, fee, charged, a);
    assert w'.wallets == charged.wallets;
  }

  /** A redemption of `amount` of which `fee` is kept back, in a settled world. */
  lemma RedeemChargedEffect(w: World, user: Key, to: Key, amount: uint64, fee: uint64, minOut: seq<uint64>, w': World)
    requires |minOut| == |w.vaults| && fee <= amount
    requires RedeemCharged(w, user, to, amount, fee, minOut) == Ok(w')
    ensures w' == w.(index := w.index.(components := w'.index.components),
                     vaults := w'.vaults, supply := w'.supply, wallets := w'.wallets)
    ensures w'.supply == w.supply - (amount - fee) && |w'.vaults| == |w.vaults|
    ensures var net := amount - fee;
      && (forall i :: 0 <= i < |w.vaults| ==> minOut[i] <= Payout(w, net, i))
      && (forall i :: 0 <= i < |w.vaults| ==> w'.vaults[i] == w.vaults[i] - Payout(w, net, i))
    ensures InStep(w.index.components, w')
  {
    var burned := BurnIndexTokens(w, user, amount).value;
    assert burned == w.(supply := w.supply - amount, wallets := burned.wallets);
    var charged := MintIndexTokens(burned, w.index.feeRecipient, fee).value;
    assert charged == w.(supply := w.supply - amount + fee, wallets := charged.wallets);
    PayOutEffect(charged, to, minOut, amount - fee, 0);
    SyncUnitsEffect(PayOutFrom(charged, to, minOut, amount - fee, 0).value);
  }

  /** One slot across a redemption, in a settled world. */
  lemma RedeemChargedSlot(w: World, user: Key, to: Key, amount: uint64, fee: uint64, net: uint64, minOut: seq<uint64>,
                          w': World, i: nat)
    requires |minOut| == |w.vaults| && net + fee == amount && i < |w.vaults|
    requires RedeemCharged(w, user, to, amount, fee, minOut) == Ok(w')
    ensures |w'.vaults| == |w.vaults| && w'.supply == w.supply - net && w'.clock == w.clock
    ensures w'.index.lastFeeAccrual == w.index.lastFeeAccrual && w'.index.params == w.index.params
    ensures minOut[i] <= Payout(w, net, i) && w'.vaults[i] == w.vaults[i] - Payout(w, net, i)
    ensures Resynced(w.index.components[i], w'.index.components[i], w'.vaults[i], w'.supply)
  {
    RedeemChargedEffect(w, user, to, amount, fee, minOut, w');
  }

  lemma BurnDebits(w: World, from: Key, amount: uint64, w': World, a: Account)
    requires BurnIndexTokens(w, from, amount) == Ok(w')
    ensures Balance(w'.wallets, a) == Balance(w.wallets, a) as int - Minted(a, from, amount)
  {
  }

  /** Every token account after a redemption: the recipient's component accounts are paid, the user's
      index account loses the tokens and the fee recipient's gains the fee; all others stand. */
  lemma RedeemChargedAccounts(w: World, user: Key, to: Key, amount: uint64, fee: uint64, minOut: seq<uint64>,
                              w': World, a: Account)
    requires |minOut| == |w.vaults| && fee <= amount && Distinct(w.index.components)
    requires RedeemCharged(w, user, to, amount, fee, minOut) == Ok(w')
    ensures Balance(w'.wallets, a)
         == Balance(w.wallets, a) as int - Minted(a, user, amount)
              + Minted(a, w.index.feeRecipient, fee) + PayoutFrom(w, to, amount - fee, a, 0)
  {
    var burned := BurnIndexTokens(w, user, amount).value;
    BurnDebits(w, user, amount, burned, a);
    var charged := MintIndexTokens(burned, w.index.feeRecipient, fee).value;
    MintCredits(burned, w.index.feeRecipient, fee, charged, a);
    assert charged.index == w.index && charged.vaults == w.vaults;
    var paid := PayOutFrom(charged, to, minOut, amount - fee, 0).value;
    PayOutAccounts(charged, to, minOut, amount - fee, 0, paid, a);
    assert w'.wallets == paid.wallets;
  }

  lemma FillBidEffect(w: World, bidder: Key, to: Key, s: nat, b: nat, sellAmount: uint64, buyAmount: uint64, w': World)
    requires s < |w.vaults| && b < |w.vaults| && s != b && w.supply > 0
    requires FillBid(w, bidder, to, s, b, sellAmount, buyAmount) == Ok(w')
    ensures sellAmount <= w.vaults[s] && w.vaults[b] + buyAmount <= U64_MAX
    ensures w' == w.(index := w.index.(components := w'.index.components), vaults := w'.vaults, wallets := w'.wallets)
    ensures w'.vaults == w.vaults[b := w.vaults[b] + buyAmount][s := w.vaults[s] - sellAmount]
    ensures InStep(w.index.components, w')
    ensures NavE6(w.index.components, w'.vaults).Ok?
    ensures NavE6(w.index.components, w'.vaults).value >= w.index.rebalance.navFloorE6
  {
    var paid := TransferFromUser(w, bidder, b, buyAmount).value;
    assert paid.vaults == w.vaults[b := w.vaults[b] + buyAmount];
    var filled := TransferFromVault(paid, s, to, sellAmount).value;
    assert filled.vaults == paid.vaults[s := paid.vaults[s] - sellAmount];
    SyncUnitsEffect(filled);
  }

  /** A fill, stage by stage. */
  lemma FillBidStages(w: World, bidder: Key, to: Key, s: nat, b: nat, sellAmount: uint64, buyAmount: uint64,
                      paid: World, filled: World, nav: uint64, w': World)
    requires s < |w.vaults| && b < |w.vaults| && |paid.vaults| == |w.vaults|
    requires TransferFromUser(w, bidder, b, buyAmount) == Ok(paid)
    requires TransferFromVault(paid, s, to, sellAmount) == Ok(filled)
    requires NavE6(filled.index.components, filled.vaults) == Ok(nav) && w.index.rebalance.navFloorE6 <= nav
    requires SyncUnits(filled) == Ok(w')
    ensures FillBid(w, bidder, to, s, b, sellAmount, buyAmount) == Ok(w')
  {
  }

  /** What the leg guards leave true of an accepted bid. */
  lemma BidLegsFacts(w: World, s: nat, b: nat, sellAmount: uint64, maxBuyAmount: uint64, premium: int32)
    requires s < |w.vaults| && b < |w.vaults|
    requires BidLegs(w, s, b, sellAmount, maxBuyAmount, premium).Ok?
    ensures var buyAmount := BidLegs(w, s, b, sellAmount, maxBuyAmount, premium).value;
      var sell, buy := w.index.components[s], w.index.components[b];
      && BidPayment(sell, buy, sellAmount, premium) == Ok(buyAmount)
      && buyAmount <= maxBuyAmount
      && TargetBalance(sell.targetUnits, w.supply).Ok?
      && TargetBalance(buy.targetUnits, w.supply).Ok?
      && BuyCap(TargetBalance(buy.targetUnits, w.supply).value, w.index.params.maxPremiumBps).Ok?
      && sellAmount <= w.vaults[s] - TargetBalance(sell.targetUnits, w.supply).value
      && w.vaults[b] < BuyCap(TargetBalance(buy.targetUnits, w.supply).value, w.index.params.maxPremiumBps).value
      && w.vaults[b] + buyAmount
        <= BuyCap(TargetBalance(buy.targetUnits, w.supply).value, w.index.params.maxPremiumBps).value
  {
  }
}
