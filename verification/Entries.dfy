/** When an issue goes through. */
module Entries {
  import opened Words
  import opened FixedPoint
  import opened Shares
  import opened Accounts
  import opened Tokens
  import opened Handlers
  import opened Effects
  import opened Invariant
  import opened Holders
  import opened Exits

  /** The cost of every slot is within the bound given for it and what the user holds, and its vault
      has room for it. */
  ghost predicate CostsMeet(w: World, user: Key, maxIn: seq<uint64>, gross: nat)
    requires |maxIn| == |w.vaults|
  {
    forall i :: 0 <= i < |w.vaults| ==>
      && Cost(w, gross, i) <= maxIn[i]
      && Cost(w, gross, i) <= Balance(w.wallets, ComponentAccount(w, user, i))
      && w.vaults[i] + Cost(w, gross, i) <= U64_MAX
  }

  /** Units of slot `i` after an issue that mints `gross`. */
  function UnitsAfterEntry(w: World, gross: nat, i: nat): nat
    requires i < |w.vaults|
  {
    DerivedUnits(PricedUnits(w, i), w.vaults[i] + Cost(w, gross, i), PricedSupply(w) + gross)
  }

  /** Every unit count a sync derives before an issue of `gross`, and after it, fits its word. */
  ghost predicate EntryUnitsFit(w: World, gross: nat) {
    forall i :: 0 <= i < |w.vaults| ==>
      && PricedUnits(w, i) <= U64_MAX
      && UnitsAfterEntry(w, gross, i) <= U64_MAX
  }

  // ---------------------------------------------------------------------------------------------
  // Stage by stage
  // ---------------------------------------------------------------------------------------------

  /** The same conditions at the stored units, in a settled world. */
  ghost predicate ChargesMeet(w: World, user: Key, maxIn: seq<uint64>, gross: uint64)
    requires |maxIn| == |w.vaults|
  {
    forall i :: 0 <= i < |w.vaults| ==>
      && Charge(w, gross, i) <= maxIn[i]
      && Charge(w, gross, i) <= Balance(w.wallets, ComponentAccount(w, user, i))
      && w.vaults[i] + Charge(w, gross, i) <= U64_MAX
  }

  ghost predicate GrownFits(w: World, gross: uint64) {
    forall i :: 0 <= i < |w.vaults| ==>
      DerivedUnits(w.index.components[i].units, w.vaults[i] + Charge(w, gross, i), w.supply + gross) <= U64_MAX
  }

  /** A delivery goes through exactly when every charge meets its bound, the purse and the vault. */
  lemma DeliverySucceedsExactly(w: World, user: Key, maxIn: seq<uint64>, gross: uint64)
    requires |maxIn| == |w.vaults| && Distinct(w.index.components)
    ensures DeliverFrom(w, user, maxIn, gross, 0).Ok? <==> ChargesMeet(w, user, maxIn, gross)
  {
    if ChargesMeet(w, user, maxIn, gross) {
      DeliverSucceeds(w, user, maxIn, gross, 0);
    }
    if DeliverFrom(w, user, maxIn, gross, 0).Ok? {
      DeliveredCharges(w, user, maxIn, gross, DeliverFrom(w, user, maxIn, gross, 0).value);
    }
  }

  lemma DeliveredCharges(w: World, user: Key, maxIn: seq<uint64>, gross: uint64, delivered: World)
    requires |maxIn| == |w.vaults| && Distinct(w.index.components)
    requires DeliverFrom(w, user, maxIn, gross, 0) == Ok(delivered)
    ensures ChargesMeet(w, user, maxIn, gross)
  {
    DeliverEffect(w, user, maxIn, gross, 0);
    forall i | 0 <= i < |w.vaults|
      ensures Charge(w, gross, i) <= Balance(w.wallets, ComponentAccount(w, user, i))
      ensures w.vaults[i] + Charge(w, gross, i) <= U64_MAX
    {
      var a := ComponentAccount(w, user, i);
      DeliverAccounts(w, user, maxIn, gross, 0, delivered, a);
      SlotIsOwn(w, a, i);
      assert delivered.vaults[i] == w.vaults[i] + Charge(w, gross, i);
    }
  }

  /** Both mints go through exactly when the supply has room for them: no account holds more than it. */
  lemma MintsSucceedExactly(w: World, to: Key, amount: uint64, fee: uint64)
    requires Balance(w.wallets, Account(to, IndexMint)) <= w.supply
    requires Balance(w.wallets, Account(w.index.feeRecipient, IndexMint)) <= w.supply
    ensures MintIndexTokens(w, to, amount).Ok?
            && MintIndexTokens(MintIndexTokens(w, to, amount).value, w.index.feeRecipient, fee).Ok?
       <==> w.supply + amount + fee <= U64_MAX
  {
  }

  /** What the delivery leaves for the mints: the same supply and the same index token accounts. */
  lemma DeliveredWorld(w: World, user: Key, maxIn: seq<uint64>, gross: uint64, delivered: World, holder: Key)
    requires |maxIn| == |w.vaults| && Distinct(w.index.components)
    requires w.supply == Total(w.wallets, IndexMint) && DeliverFrom(w, user, maxIn, gross, 0) == Ok(delivered)
    ensures delivered.supply == w.supply && delivered.index == w.index && |delivered.vaults| == |w.vaults|
    ensures forall i :: 0 <= i < |w.vaults| ==> delivered.vaults[i] == w.vaults[i] + Charge(w, gross, i)
    ensures Balance(delivered.wallets, Account(holder, IndexMint)) <= w.supply
  {
    DeliverEffect(w, user, maxIn, gross, 0);
    DeliverAccounts(w, user, maxIn, gross, 0, delivered, Account(holder, IndexMint));
    BalanceWithinTotal(w.wallets, Account(holder, IndexMint));
  }

  /** The mints and the closing sync of an issue whose components are delivered. */
  lemma DeliveredIssueSucceedsExactly(w: World, delivered: World, to: Key, amount: uint64, fee: uint64, gross: uint64)
    requires amount + fee == gross && |delivered.vaults| == |w.vaults|
    requires delivered.supply == w.supply && delivered.index == w.index
    requires forall i :: 0 <= i < |w.vaults| ==> delivered.vaults[i] == w.vaults[i] + Charge(w, gross, i)
    requires Balance(delivered.wallets, Account(to, IndexMint)) <= w.supply
    requires Balance(delivered.wallets, Account(w.index.feeRecipient, IndexMint)) <= w.supply
    ensures (MintIndexTokens(delivered, to, amount).Ok?
             && var minted := MintIndexTokens(delivered, to, amount).value;
             MintIndexTokens(minted, w.index.feeRecipient, fee).Ok?
             && SyncUnits(MintIndexTokens(minted, w.index.feeRecipient, fee).value).Ok?)
       <==> w.supply + gross <= U64_MAX && GrownFits(w, gross)
  {
    MintsSucceedExactly(delivered, to, amount, fee);
    if w.supply + gross <= U64_MAX {
      var minted := MintIndexTokens(delivered, to, amount).value;
      var charged := MintIndexTokens(minted, w.index.feeRecipient, fee).value;
      ClosingSync(w, charged, gross);
    }
  }

  lemma ClosingSync(w: World, charged: World, gross: uint64)
    requires charged.index == w.index && charged.supply == w.supply + gross && |charged.vaults| == |w.vaults|
    requires forall i :: 0 <= i < |w.vaults| ==> charged.vaults[i] == w.vaults[i] + Charge(w, gross, i)
    ensures SyncUnits(charged).Ok? <==> GrownFits(w, gross)
  {
    SyncUnitsEffect(charged);
  }

  /** An issue in a settled world. */
  lemma ChargedIssueSucceedsExactly(w: World, user: Key, to: Key, amount: uint64, fee: uint64, gross: uint64,
                                    maxIn: seq<uint64>)
    requires |maxIn| == |w.vaults| && Distinct(w.index.components)
    requires w.supply == Total(w.wallets, IndexMint) && amount + fee == gross
    ensures IssueCharged(w, user, to, amount, fee, maxIn).Ok? <==>
      && ChargesMeet(w, user, maxIn, gross)
      && w.supply + gross <= U64_MAX
      && GrownFits(w, gross)
  {
    DeliverySucceedsExactly(w, user, maxIn, gross);
    if DeliverFrom(w, user, maxIn, gross, 0).Ok? {
      var delivered := DeliverFrom(w, user, maxIn, gross, 0).value;
      DeliveredWorld(w, user, maxIn, gross, delivered, to);
      DeliveredWorld(w, user, maxIn, gross, delivered, w.index.feeRecipient);
      DeliveredIssueSucceedsExactly(w, delivered, to, amount, fee, gross);
    }
  }

  // ---------------------------------------------------------------------------------------------
  // The whole instruction
  // ---------------------------------------------------------------------------------------------

  /** One slot of the settled world charges what the instruction is priced at. */
  lemma SettledCharge(w: World, settled: World, user: Key, gross: uint64, i: nat)
    requires Settled(w) == Ok(settled) && i < |w.vaults| == |settled.vaults|
    ensures settled.vaults[i] == w.vaults[i] && Charge(settled, gross, i) == Cost(w, gross, i)
    ensures Balance(settled.wallets, ComponentAccount(settled, user, i))
         == Balance(w.wallets, ComponentAccount(w, user, i))
    ensures DerivedUnits(settled.index.components[i].units, settled.vaults[i] + Charge(settled, gross, i),
                         settled.supply + gross) == UnitsAfterEntry(w, gross, i)
    ensures PricedUnits(w, i) <= U64_MAX
  {
    SettledEffect(w);
    SettledPrices(w, settled, i);
  }

  lemma SettledCharges(w: World, settled: World, user: Key, gross: uint64, maxIn: seq<uint64>)
    requires Settled(w) == Ok(settled) && |maxIn| == |w.vaults| == |settled.vaults|
    ensures ChargesMeet(settled, user, maxIn, gross) <==> CostsMeet(w, user, maxIn, gross)
  {
    forall i | 0 <= i < |w.vaults|
      ensures settled.vaults[i] == w.vaults[i] && Charge(settled, gross, i) == Cost(w, gross, i)
      ensures Balance(settled.wallets, ComponentAccount(settled, user, i))
           == Balance(w.wallets, ComponentAccount(w, user, i))
    {
      SettledCharge(w, settled, user, gross, i);
    }
  }

  lemma SettledGrowth(w: World, settled: World, user: Key, gross: uint64)
    requires Settled(w) == Ok(settled) && |w.vaults| == |settled.vaults|
    ensures GrownFits(settled, gross) <==> EntryUnitsFit(w, gross)
  {
    forall i | 0 <= i < |w.vaults|
      ensures DerivedUnits(settled.index.components[i].units, settled.vaults[i] + Charge(settled, gross, i),
                           settled.supply + gross) == UnitsAfterEntry(w, gross, i)
      ensures PricedUnits(w, i) <= U64_MAX
    {
      SettledCharge(w, settled, user, gross, i);
    }
  }

  /** Once the fee is minted and the units are in step, an issue is its charge. */
  lemma IssueIsStaged(w: World, settled: World, user: Key, to: Key, amount: uint64, fee: uint64, maxIn: seq<uint64>)
    requires 0 < amount && w.index.status.Live? && |maxIn| == |w.vaults| == |settled.vaults|
    requires Settled(w) == Ok(settled) && settled.index.params == w.index.params
    requires FlatFee(amount, w.index.params.issueFeeBps) == Ok(fee)
    ensures Issue(w, user, to, amount, maxIn)
         == if amount + fee <= U64_MAX then IssueCharged(settled, user, to, amount, fee, maxIn) else Err(MathOverflow)
  {
  }

  lemma IssueNeedsSettling(w: World, user: Key, to: Key, amount: uint64, maxIn: seq<uint64>)
    requires amount == 0 || !w.index.status.Live? || |maxIn| != |w.vaults| || Settled(w).Err?
    ensures Issue(w, user, to, amount, maxIn).Err?
  {
  }

  lemma SettledIssueSucceedsExactly(w: World, settled: World, user: Key, to: Key, amount: uint64, fee: uint64,
                                    gross: uint64, maxIn: seq<uint64>)
    requires Sound(w) && |maxIn| == |w.vaults| == |settled.vaults|
    requires Settled(w) == Ok(settled) && amount + fee == gross
    ensures IssueCharged(settled, user, to, amount, fee, maxIn).Ok? <==>
      && CostsMeet(w, user, maxIn, gross)
      && PricedSupply(w) + gross <= U64_MAX
      && EntryUnitsFit(w, gross)
  {
    SettledWorld(w, settled, user);
    SettledCharges(w, settled, user, gross, maxIn);
    SettledGrowth(w, settled, user, gross);
    ChargedIssueSucceedsExactly(settled, user, to, amount, fee, gross, maxIn);
  }

  lemma IssueOfSettled(w: World, settled: World, user: Key, to: Key, amount: uint64, maxIn: seq<uint64>)
    requires Sound(w) && w.index.status.Live? && |maxIn| == |w.vaults| && 0 < amount && Settled(w) == Ok(settled)
    ensures Issue(w, user, to, amount, maxIn).Ok? <==>
      && CostsMeet(w, user, maxIn, Gross(w, amount))
      && PricedSupply(w) + Gross(w, amount) <= U64_MAX
      && EntryUnitsFit(w, Gross(w, amount))
  {
    FeeWithin(amount, w.index.params.issueFeeBps);
    var fee := FlatFee(amount, w.index.params.issueFeeBps).value;
    SettledWorld(w, settled, user);
    IssueIsStaged(w, settled, user, to, amount, fee, maxIn);
    if amount + fee <= U64_MAX {
      SettledIssueSucceedsExactly(w, settled, user, to, amount, fee, Gross(w, amount), maxIn);
    }
  }

  /** Everything an issue has to meet: a live index, a positive amount, one bound for each slot, the fee
      accrued, every cost within its bound, the user's holding and its vault's word, and a supply and
      units that fit theirs. */
  ghost predicate IssueMeets(w: World, user: Key, amount: uint64, maxIn: seq<uint64>) {
    && w.index.status.Live?
    && 0 < amount
    && |maxIn| == |w.vaults|
    && FeeFits(w)
    && CostsMeet(w, user, maxIn, Gross(w, amount))
    && PricedSupply(w) + Gross(w, amount) <= U64_MAX
    && EntryUnitsFit(w, Gross(w, amount))
  }

  /** In a sound fund an issue goes through exactly when it meets these. */
  lemma IssueSucceedsExactly(w: World, user: Key, to: Key, amount: uint64, maxIn: seq<uint64>)
    requires Sound(w)
    ensures Issue(w, user, to, amount, maxIn).Ok? <==> IssueMeets(w, user, amount, maxIn)
  {
    SettlingSucceedsExactly(w);
    if 0 < amount && w.index.status.Live? && |maxIn| == |w.vaults| && Settled(w).Ok? {
      IssueOfSettled(w, Settled(w).value, user, to, amount, maxIn);
    } else {
      IssueNeedsSettling(w, user, to, amount, maxIn);
    }
  }
}
