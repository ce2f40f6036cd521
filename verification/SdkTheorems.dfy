/** The SDK's numbers are the chain's. */
module SdkTheorems {
  import opened Words
  import opened Division
  import opened FixedPoint
  import opened Sums
  import opened Shares
  import opened Kernel
  import opened Accounts
  import opened Tokens
  import opened Handlers
  import opened Effects
  import opened Invariant
  import opened Holders
  import opened Auctions
  import opened Convergence
  import opened Bids
  import Math = SdkMath
  import opened Sdk

  // ---------------------------------------------------------------------------------------------
  // Quotes
  // ---------------------------------------------------------------------------------------------

  /** An up-to-date snapshot shows exactly the fee the program would mint. */
  lemma PendingFeeIsOwed(w: World)
    requires FeeOwed(w).Ok?
    ensures TakeSnapshot(w, w.clock).Some?
    ensures var s := TakeSnapshot(w, w.clock).value;
      Complete(s) && s.pendingFee == FeeOwed(w).value && s.supply + s.pendingFee == PricedSupply(w)
  {
    var f, dt := w.index.params.streamingFeeBps, w.clock - w.index.lastFeeAccrual;
    if dt > I64_MAX {
      assert f >= 1 ==> f * I64_MAX >= I64_MAX;
    } else if dt < I64_MIN {
    } else {
      Math.StreamingFeeAgrees(w.supply, f, dt);
    }
  }

  /** A snapshot copies the chain and shows the fee for the time until `asOf`, which is what the program
      would find owed then if only time passed; there is one exactly unless that fee takes the whole fund. */
  lemma SnapshotLooksAhead(w: World, asOf: int64)
    ensures var due := w.index.params.streamingFeeBps * (asOf - w.index.lastFeeAccrual);
      TakeSnapshot(w, asOf) == if w.supply > 0 && due >= FEE_DENOMINATOR then None
        else Some(Snapshot(w.index, w.supply, w.vaults, FeeFor(w.supply, due), asOf))
    ensures var later := w.(clock := asOf);
      FeeOwed(later).Ok? ==>
        FeeOwed(later).value == FeeFor(w.supply, w.index.params.streamingFeeBps * (asOf - w.index.lastFeeAccrual))
  {
    FeeOwedExactly(w.(clock := asOf));
    ShownFee(w.supply, w.index.params.streamingFeeBps, asOf - w.index.lastFeeAccrual);
  }

  lemma ShownFee(supply: nat, feeBps: nat, dt: int)
    ensures Math.StreamingFeeTokens(supply, feeBps, dt)
         == if supply > 0 && feeBps * dt >= FEE_DENOMINATOR then None else Some(FeeFor(supply, feeBps * dt))
  {
    if dt <= 0 {
      MulMonotone(dt, 0, feeBps);
    } else if feeBps > 0 {
      MulMonotone(1, dt, feeBps);
    }
  }

  lemma FeeTokensAgree(amount: nat, feeBps: nat)
    ensures FeeTokens(amount, feeBps) == FeeOn(amount, feeBps)
  {
    Math.CeilAgrees(amount, feeBps, BPS);
  }

  lemma UnitsAtAgree(w: World, s: Snapshot, i: nat)
    requires FeeOwed(w).Ok? && TakeSnapshot(w, w.clock) == Some(s) && Complete(s) && i < |w.vaults|
    requires s.supply + s.pendingFee == PricedSupply(w)
    ensures UnitsAt(s, s.supply + s.pendingFee)[i] == PricedUnits(w, i)
  {
    var supply := PricedSupply(w);
    if supply > 0 {
      FloorBounds(w.vaults[i] * UNIT_SCALE, supply);
    }
  }

  /** The SDK quotes exactly what the program charges in every slot. */
  lemma QuotedCost(w: World, s: Snapshot, amount: uint64, i: nat)
    requires FeeOwed(w).Ok? && TakeSnapshot(w, w.clock) == Some(s) && i < |w.vaults|
    ensures Complete(s) && |QuoteIssue(s, amount).required| == |w.vaults|
    ensures QuoteIssue(s, amount).required[i] == Cost(w, Gross(w, amount), i)
    ensures QuoteIssue(s, amount).feeTokens == FeeOn(amount, w.index.params.issueFeeBps)
  {
    PendingFeeIsOwed(w);
    FeeTokensAgree(amount, w.index.params.issueFeeBps);
    UnitsAtAgree(w, s, i);
    Math.CeilAgrees(PricedUnits(w, i), Gross(w, amount), UNIT_SCALE);
  }

  /** The SDK quotes exactly what the program pays in every slot. */
  lemma QuotedProceeds(w: World, s: Snapshot, amount: uint64, i: nat)
    requires FeeOwed(w).Ok? && TakeSnapshot(w, w.clock) == Some(s) && i < |w.vaults| && 0 <= Net(w, amount)
    ensures Complete(s) && |QuoteRedeem(s, amount).payout| == |w.vaults|
    ensures QuoteRedeem(s, amount).payout[i] == Proceeds(w, Net(w, amount), i)
    ensures QuoteRedeem(s, amount).feeTokens == FeeOn(amount, w.index.params.redeemFeeBps)
  {
    PendingFeeIsOwed(w);
    FeeTokensAgree(amount, w.index.params.redeemFeeBps);
    UnitsAtAgree(w, s, i);
    FloorBounds(PricedUnits(w, i) * Net(w, amount), UNIT_SCALE);
  }

  /** On an up-to-date snapshot the issue quote is, component by component and in fee tokens, what an
      accepted issue moves; a first issue included. */
  lemma QuoteIssueIsExact(w: World, s: Snapshot, user: Key, to: Key, amount: uint64, maxIn: seq<uint64>, w': World,
                          i: nat)
    requires TakeSnapshot(w, w.clock) == Some(s) && i < |w.vaults|
    requires Issue(w, user, to, amount, maxIn) == Ok(w')
    ensures |w'.vaults| == |w.vaults| && Complete(s) && |QuoteIssue(s, amount).required| == |w.vaults|
    ensures w'.vaults[i] == w.vaults[i] + QuoteIssue(s, amount).required[i]
    ensures w'.supply == s.supply + s.pendingFee + amount + QuoteIssue(s, amount).feeTokens
  {
    IssueMoves(w, user, to, amount, maxIn, w', i);
    PendingFeeIsOwed(w);
    QuotedCost(w, s, amount, i);
  }

  /** On an up-to-date snapshot the redeem quote is what an accepted redemption moves. */
  lemma QuoteRedeemIsExact(w: World, s: Snapshot, user: Key, to: Key, amount: uint64, minOut: seq<uint64>, w': World,
                           i: nat)
    requires TakeSnapshot(w, w.clock) == Some(s) && i < |w.vaults|
    requires Redeem(w, user, to, amount, minOut) == Ok(w')
    ensures |w'.vaults| == |w.vaults| && Complete(s) && |QuoteRedeem(s, amount).payout| == |w.vaults|
    ensures w'.vaults[i] == w.vaults[i] - QuoteRedeem(s, amount).payout[i]
    ensures w'.supply == s.supply + s.pendingFee - amount + QuoteRedeem(s, amount).feeTokens
  {
    RedeemMoves(w, user, to, amount, minOut, w', i);
    PendingFeeIsOwed(w);
    QuotedProceeds(w, s, amount, i);
  }

  // ---------------------------------------------------------------------------------------------
  // Slippage bounds
  // ---------------------------------------------------------------------------------------------

  /** As time alone passes the fee owed only grows, so no slot costs more to enter. */
  lemma WaitingNeverRaisesCost(w: World, later: World, gross: nat, i: nat)
    requires later == w.(clock := later.clock) && w.clock <= later.clock && i < |w.vaults|
    requires FeeOwed(w).Ok? && FeeOwed(later).Ok?
    ensures Cost(later, gross, i) <= Cost(w, gross, i)
  {
    StreamingFeeIsMonotone(w.supply, w.index.params.streamingFeeBps, SaturatingSub(w.clock, w.index.lastFeeAccrual),
                           w.supply, w.index.params.streamingFeeBps,
                             SaturatingSub(later.clock, w.index.lastFeeAccrual));
    LaterUnits(w.index.components[i].units, w.vaults[i], PricedSupply(w), PricedSupply(later), gross);
  }

  /** More supply over the same vault gives fewer units, and a smaller cost. */
  lemma LaterUnits(units: nat, balance: nat, supply: nat, supply': nat, gross: nat)
    requires supply <= supply' && (supply' == 0 || supply > 0)
    ensures SlotCost(units, balance, supply', gross) <= SlotCost(units, balance, supply, gross)
  {
    if supply > 0 {
      FloorAntitone(balance * UNIT_SCALE, supply, supply');
    }
    var u, u' := DerivedUnits(units, balance, supply), DerivedUnits(units, balance, supply');
    MulMonotone(u', u, gross);
    CeilMonotone(u' * gross, u * gross, UNIT_SCALE);
  }

  /** A delivery whose charges are all within bounds never fails on slippage. */
  lemma {:induction false} DeliveryWithinBounds(w: World, user: Key, maxIn: seq<uint64>, gross: uint64, i: nat)
    requires |maxIn| == |w.vaults| && i <= |w.vaults|
    requires forall j :: i <= j < |w.vaults| ==> Charge(w, gross, j) <= maxIn[j]
    ensures DeliverFrom(w, user, maxIn, gross, i) != Err(SlippageExceeded)
    decreases |w.vaults| - i
  {
    if i == |w.vaults| {
    } else {
      UnitsInValue(w.index.components[i].units, gross);
      var next := TransferFromUser(w, user, i, Charge(w, gross, i));
      if next.Ok? {
        assert forall j :: i <= j < |w.vaults| ==> Charge(next.value, gross, j) == Charge(w, gross, j);
        DeliveryWithinBounds(next.value, user, maxIn, gross, i + 1);
      }
    }
  }

  /** A payout that meets all bounds never fails on slippage. */
  lemma {:induction false} PayoutWithinBounds(w: World, to: Key, minOut: seq<uint64>, net: uint64, i: nat)
    requires |minOut| == |w.vaults| && i <= |w.vaults|
    requires forall j :: i <= j < |w.vaults| ==> minOut[j] <= Payout(w, net, j)
    ensures PayOutFrom(w, to, minOut, net, i) != Err(SlippageExceeded)
    decreases |w.vaults| - i
  {
    if i == |w.vaults| {
    } else {
      UnitsOutValue(w.index.components[i].units, net);
      if Payout(w, net, i) <= U64_MAX {
        var next := TransferFromVault(w, i, to, Payout(w, net, i));
        if next.Ok? {
          assert next.value.index == w.index && |next.value.vaults| == |w.vaults|;
          assert forall j :: i <= j < |w.vaults| ==> Payout(next.value, net, j) == Payout(w, net, j);
          PayoutWithinBounds(next.value, to, minOut, net, i + 1);
        }
      }
    }
  }

  /** The instruction an SDK caller builds for an issue carries each quoted cost with room to spare. */
  lemma MaxInCoversCost(w: World, s: Snapshot, amount: uint64, slippageBps: nat, i: nat)
    requires FeeOwed(w).Ok? && TakeSnapshot(w, w.clock) == Some(s) && i < |w.vaults|
    ensures Complete(s) && |MaxIn(s, amount, slippageBps)| == |w.vaults|
    ensures Cost(w, Gross(w, amount), i) < MaxIn(s, amount, slippageBps)[i]
  {
    QuotedCost(w, s, amount, i);
    FloorBounds(Cost(w, Gross(w, amount), i) * slippageBps, BPS);
  }

  /** The bounds of a redeem instruction never ask for more than the quoted payout. */
  lemma MinOutBelowProceeds(w: World, s: Snapshot, amount: uint64, slippageBps: nat, i: nat)
    requires FeeOwed(w).Ok? && TakeSnapshot(w, w.clock) == Some(s) && i < |w.vaults| && 0 <= Net(w, amount)
    ensures Complete(s) && |MinOut(s, amount, slippageBps)| == |w.vaults|
    ensures MinOut(s, amount, slippageBps)[i] <= Proceeds(w, Net(w, amount), i)
  {
    QuotedProceeds(w, s, amount, i);
    FloorBounds(Proceeds(w, Net(w, amount), i) * slippageBps, BPS);
  }

  /** An upper bound is a cost with `slippageBps` on top, cut down to a base unit, and one more. */
  predicate AllowsSlippage(cost: nat, slippageBps: nat, bound: int) {
    (bound - 1) * BPS <= cost * (BPS + slippageBps) < bound * BPS
  }

  /** A lower bound is a payout less `slippageBps`, rounded up. */
  predicate AsksItsShare(payout: nat, slippageBps: nat, bound: int) {
    payout * (BPS - slippageBps) <= bound * BPS < payout * (BPS - slippageBps) + BPS
  }

  /** Each bound of an issue instruction is its quoted cost with exactly the slippage on top, cut down to
      a base unit, and one more. */
  lemma MaxInIsQuotePlusSlippage(w: World, s: Snapshot, amount: uint64, slippageBps: nat, i: nat)
    requires FeeOwed(w).Ok? && TakeSnapshot(w, w.clock) == Some(s) && i < |w.vaults|
    ensures Complete(s) && |MaxIn(s, amount, slippageBps)| == |w.vaults|
    ensures AllowsSlippage(Cost(w, Gross(w, amount), i), slippageBps, MaxIn(s, amount, slippageBps)[i])
  {
    QuotedCost(w, s, amount, i);
    var cost := Cost(w, Gross(w, amount), i);
    FloorBounds(cost * slippageBps, BPS);
    assert cost * (BPS + slippageBps) == cost * BPS + cost * slippageBps;
  }

  /** Each bound of a redeem instruction keeps exactly its share of the quoted payout, rounded up. */
  lemma MinOutIsQuoteLessSlippage(w: World, s: Snapshot, amount: uint64, slippageBps: nat, i: nat)
    requires FeeOwed(w).Ok? && TakeSnapshot(w, w.clock) == Some(s) && i < |w.vaults| && 0 <= Net(w, amount)
    ensures Complete(s) && |MinOut(s, amount, slippageBps)| == |w.vaults|
    ensures AsksItsShare(Proceeds(w, Net(w, amount), i), slippageBps, MinOut(s, amount, slippageBps)[i])
  {
    QuotedProceeds(w, s, amount, i);
    var payout := Proceeds(w, Net(w, amount), i);
    FloorBounds(payout * slippageBps, BPS);
    assert payout * (BPS - slippageBps) == payout * BPS - payout * slippageBps;
  }

  /** So whoever sends the bounds quoted in `w` and is accepted in whatever world is charged at most the
      quote, the slippage and one base unit. */
  lemma AcceptedIssueKeepsQuote(w: World, s: Snapshot, amount: uint64, slippageBps: nat, maxIn: seq<uint64>,
                                later: World, user: Key, to: Key, amount': uint64, after: World, i: nat)
    requires FeeOwed(w).Ok? && TakeSnapshot(w, w.clock) == Some(s) && Complete(s) && i < |w.vaults|
    requires maxIn == MaxIn(s, amount, slippageBps) && Issue(later, user, to, amount', maxIn) == Ok(after)
    ensures |later.vaults| == |w.vaults| == |after.vaults|
    ensures (after.vaults[i] - later.vaults[i] - 1) * BPS <= Cost(w, Gross(w, amount), i) * (BPS + slippageBps)
  {
    MaxInIsQuotePlusSlippage(w, s, amount, slippageBps, i);
    IssueTakesArity(later, user, to, amount', maxIn);
    IssueMoves(later, user, to, amount', maxIn, after, i);
  }

  lemma IssueTakesArity(w: World, user: Key, to: Key, amount: uint64, maxIn: seq<uint64>)
    requires Issue(w, user, to, amount, maxIn).Ok?
    ensures |maxIn| == |w.vaults|
  {
  }

  /** And is paid, in whatever world accepts them, at least the quote less the slippage. */
  lemma AcceptedRedeemKeepsQuote(w: World, s: Snapshot, amount: uint64, slippageBps: nat, minOut: seq<uint64>,
                                 later: World, user: Key, to: Key, amount': uint64, after: World, i: nat)
    requires FeeOwed(w).Ok? && TakeSnapshot(w, w.clock) == Some(s) && Complete(s) && i < |w.vaults|
      && 0 <= Net(w, amount)
    requires minOut == MinOut(s, amount, slippageBps) && Redeem(later, user, to, amount', minOut) == Ok(after)
    ensures |later.vaults| == |w.vaults| == |after.vaults|
    ensures Proceeds(w, Net(w, amount), i) * (BPS - slippageBps) <= (later.vaults[i] - after.vaults[i]) * BPS
  {
    MinOutIsQuoteLessSlippage(w, s, amount, slippageBps, i);
    RedeemTakesArity(later, user, to, amount', minOut);
    RedeemMoves(later, user, to, amount', minOut, after, i);
  }

  lemma RedeemTakesArity(w: World, user: Key, to: Key, amount: uint64, minOut: seq<uint64>)
    requires Redeem(w, user, to, amount, minOut).Ok?
    ensures |minOut| == |w.vaults|
  {
  }

  lemma ChargedIssueNeverSlips(settled: World, user: Key, to: Key, amount: uint64, fee: uint64, maxIn: seq<uint64>)
    requires |maxIn| == |settled.vaults| && amount + fee <= U64_MAX
    requires forall i :: 0 <= i < |settled.vaults| ==> Charge(settled, amount + fee, i) <= maxIn[i]
    ensures IssueCharged(settled, user, to, amount, fee, maxIn) != Err(SlippageExceeded)
  {
    DeliveryWithinBounds(settled, user, maxIn, amount + fee, 0);
    var delivered := DeliverFrom(settled, user, maxIn, amount + fee, 0);
    if delivered.Ok? {
      var minted := MintIndexTokens(delivered.value, to, amount);
      if minted.Ok? {
        var charged := MintIndexTokens(minted.value, settled.index.feeRecipient, fee);
        if charged.Ok? {
          SyncUnitsEffect(charged.value);
        }
      }
    }
  }

  /** An issue fails on slippage only if some slot costs more than its bound. */
  lemma IssueSlipsOnlyOnCost(w: World, user: Key, to: Key, amount: uint64, maxIn: seq<uint64>)
    requires |maxIn| == |w.vaults|
    requires forall i :: 0 <= i < |w.vaults| ==> FeeOwed(w).Ok? ==> Cost(w, Gross(w, amount), i) <= maxIn[i]
    ensures Issue(w, user, to, amount, maxIn) != Err(SlippageExceeded)
  {
    if Issue(w, user, to, amount, maxIn) == Err(SlippageExceeded) {
      SettlingNeverSlips(w);
      var settled := Settled(w).value;
      FlatFeeNeverSlips(amount, w.index.params.issueFeeBps);
      var fee := FlatFee(amount, w.index.params.issueFeeBps).value;
      forall i | 0 <= i < |settled.vaults| ensures Charge(settled, amount + fee, i) <= maxIn[i] {
        SettledPrices(w, settled, i);
      }
      ChargedIssueNeverSlips(settled, user, to, amount, fee, maxIn);
      assert false;
    }
  }

  lemma SettlingNeverSlips(w: World)
    ensures Settled(w) != Err(SlippageExceeded)
    ensures Settled(w).Ok? ==>
      FeeOwed(w).Ok? && |Settled(w).value.vaults| == |w.vaults| && Settled(w).value.index.params == w.index.params
  {
    if Accrue(w).Ok? {
      SyncUnitsEffect(Accrue(w).value);
    }
    if Settled(w).Ok? {
      SettledEffect(w);
    }
  }

  lemma FlatFeeNeverSlips(amount: uint64, feeBps: uint16)
    ensures FlatFee(amount, feeBps) != Err(SlippageExceeded)
    ensures FlatFee(amount, feeBps).Ok? ==> FlatFee(amount, feeBps).value == FeeOn(amount, feeBps)
  {
    FlatFeeValue(amount, feeBps);
  }

  /** The bounds an SDK caller put into an issue still hold later, as long as only time has passed:
      whatever else may stop the transaction, slippage does not. */
  lemma QuotedIssueNeverSlips(w: World, s: Snapshot, later: World, user: Key, to: Key, amount: uint64,
                              slippageBps: nat, maxIn: seq<uint64>)
    requires FeeOwed(w).Ok? && TakeSnapshot(w, w.clock) == Some(s) && Complete(s)
    requires later == w.(clock := later.clock) && w.clock <= later.clock
    requires maxIn == MaxIn(s, amount, slippageBps) && |maxIn| == |w.vaults|
    ensures forall i :: 0 <= i < |w.vaults| ==> AllowsSlippage(Cost(w, Gross(w, amount), i), slippageBps, maxIn[i])
    ensures Issue(later, user, to, amount, maxIn) != Err(SlippageExceeded)
  {
    forall i | 0 <= i < |w.vaults| ensures AllowsSlippage(Cost(w, Gross(w, amount), i), slippageBps, maxIn[i]) {
      MaxInIsQuotePlusSlippage(w, s, amount, slippageBps, i);
    }
    if FeeOwed(later).Ok? {
      forall i | 0 <= i < |w.vaults| ensures Cost(later, Gross(later, amount), i) <= maxIn[i] {
        MaxInCoversCost(w, s, amount, slippageBps, i);
        WaitingNeverRaisesCost(w, later, Gross(w, amount), i);
      }
    }
    IssueSlipsOnlyOnCost(later, user, to, amount, maxIn);
  }

  lemma ChargedRedeemNeverSlips(settled: World, user: Key, to: Key, amount: uint64, fee: uint64, minOut: seq<uint64>)
    requires |minOut| == |settled.vaults| && fee <= amount
    requires forall i :: 0 <= i < |settled.vaults| ==> minOut[i] <= Payout(settled, amount - fee, i)
    ensures RedeemCharged(settled, user, to, amount, fee, minOut) != Err(SlippageExceeded)
  {
    var burned := BurnIndexTokens(settled, user, amount);
    if burned.Ok? {
      var charged := MintIndexTokens(burned.value, settled.index.feeRecipient, fee);
      if charged.Ok? {
        assert charged.value.index == settled.index && charged.value.vaults == settled.vaults;
        var net: uint64 := amount - fee;
        assert forall i :: 0 <= i < |settled.vaults| ==> Payout(charged.value, net, i) == Payout(settled, net, i);
        PayoutWithinBounds(charged.value, to, minOut, net, 0);
        var paid := PayOutFrom(charged.value, to, minOut, net, 0);
        if paid.Ok? {
          SyncUnitsEffect(paid.value);
        }
      }
    }
  }

  /** A redemption fails on slippage only if some slot pays less than its bound. */
  lemma RedeemSlipsOnlyOnProceeds(w: World, user: Key, to: Key, amount: uint64, minOut: seq<uint64>)
    requires |minOut| == |w.vaults|
    requires FeeOwed(w).Ok?
    requires 0 <= Net(w, amount) ==> forall i :: 0 <= i < |w.vaults| ==> minOut[i] <= Proceeds(w, Net(w, amount), i)
    ensures Redeem(w, user, to, amount, minOut) != Err(SlippageExceeded)
  {
    if Redeem(w, user, to, amount, minOut) == Err(SlippageExceeded) {
      SettlingNeverSlips(w);
      var settled := Settled(w).value;
      FlatFeeNeverSlips(amount, w.index.params.redeemFeeBps);
      var fee := FlatFee(amount, w.index.params.redeemFeeBps).value;
      forall i | 0 <= i < |settled.vaults| ensures minOut[i] <= Payout(settled, amount - fee, i) {
        SettledPrices(w, settled, i);
      }
      ChargedRedeemNeverSlips(settled, user, to, amount, fee, minOut);
      assert false;
    }
  }

  lemma BoundsAskTheirShare(w: World, s: Snapshot, amount: uint64, slippageBps: nat, minOut: seq<uint64>)
    requires FeeOwed(w).Ok? && TakeSnapshot(w, w.clock) == Some(s) && Complete(s)
    requires minOut == MinOut(s, amount, slippageBps) && |minOut| == |w.vaults|
    ensures 0 <= Net(w, amount) ==> forall i :: 0 <= i < |w.vaults| ==>
      AsksItsShare(Proceeds(w, Net(w, amount), i), slippageBps, minOut[i])
  {
    forall i | 0 <= Net(w, amount) && 0 <= i < |w.vaults|
      ensures AsksItsShare(Proceeds(w, Net(w, amount), i), slippageBps, minOut[i])
    {
      MinOutIsQuoteLessSlippage(w, s, amount, slippageBps, i);
    }
  }

  /** The bounds an SDK caller puts into a redemption on an up-to-date snapshot are never missed. */
  lemma QuotedRedeemNeverSlips(w: World, s: Snapshot, user: Key, to: Key, amount: uint64, slippageBps: nat,
                               minOut: seq<uint64>)
    requires FeeOwed(w).Ok? && TakeSnapshot(w, w.clock) == Some(s) && Complete(s)
    requires minOut == MinOut(s, amount, slippageBps) && |minOut| == |w.vaults|
    ensures 0 <= Net(w, amount) ==> forall i :: 0 <= i < |w.vaults| ==>
      AsksItsShare(Proceeds(w, Net(w, amount), i), slippageBps, minOut[i])
    ensures Redeem(w, user, to, amount, minOut) != Err(SlippageExceeded)
  {
    BoundsAskTheirShare(w, s, amount, slippageBps, minOut);
    forall i | 0 <= Net(w, amount) && 0 <= i < |w.vaults| ensures minOut[i] <= Proceeds(w, Net(w, amount), i) {
      MinOutBelowProceeds(w, s, amount, slippageBps, i);
    }
    RedeemSlipsOnlyOnProceeds(w, user, to, amount, minOut);
  }

  /** They are still met later, with only time passed, as long as the slippage absorbs what the growth
      of the fee owed takes from the proceeds of each slot. */
  lemma QuotedRedeemHoldsLater(w: World, s: Snapshot, later: World, user: Key, to: Key, amount: uint64,
                               slippageBps: nat, minOut: seq<uint64>)
    requires FeeOwed(later).Ok? && TakeSnapshot(w, w.clock) == Some(s) && Complete(s)
    requires later == w.(clock := later.clock) && w.clock <= later.clock && 0 < w.supply
    requires minOut == MinOut(s, amount, slippageBps) && |minOut| == |w.vaults|
    requires 0 <= Net(w, amount) ==> forall i :: 0 <= i < |w.vaults| ==>
      Absorbs(Proceeds(w, Net(w, amount), i), slippageBps, PricedSupply(w), PricedSupply(later), Net(w, amount))
    ensures 0 <= Net(w, amount) ==> forall i :: 0 <= i < |w.vaults| ==>
      AsksItsShare(Proceeds(w, Net(w, amount), i), slippageBps, minOut[i])
    ensures Redeem(later, user, to, amount, minOut) != Err(SlippageExceeded)
  {
    var net := Net(w, amount);
    LaterSupply(w, later);
    BoundsAskTheirShare(w, s, amount, slippageBps, minOut);
    forall i | 0 <= net && 0 <= i < |w.vaults| ensures minOut[i] <= Proceeds(later, net, i) {
      MinOutErodes(w, s, later, amount, slippageBps, i);
    }
    RedeemSlipsOnlyOnProceeds(later, user, to, amount, minOut);
  }

  lemma MinOutErodes(w: World, s: Snapshot, later: World, amount: uint64, slippageBps: nat, i: nat)
    requires FeeOwed(w).Ok? && TakeSnapshot(w, w.clock) == Some(s) && Complete(s) && i < |w.vaults|
      && 0 <= Net(w, amount)
    requires later == w.(clock := later.clock) && 0 < PricedSupply(w) <= PricedSupply(later)
    requires Absorbs(Proceeds(w, Net(w, amount), i), slippageBps, PricedSupply(w), PricedSupply(later), Net(w, amount))
    ensures |MinOut(s, amount, slippageBps)| == |w.vaults|
    ensures MinOut(s, amount, slippageBps)[i] <= Proceeds(later, Net(w, amount), i)
  {
    QuotedProceeds(w, s, amount, i);
    FloorBounds(Proceeds(w, Net(w, amount), i) * slippageBps, BPS);
    ProceedsErodeSlowly(w.index.components[i].units, w.vaults[i], PricedSupply(w), PricedSupply(later), Net(w, amount),
                        slippageBps);
  }

  /** The supply a redemption is priced at never falls while only time passes. */
  lemma LaterSupply(w: World, later: World)
    requires later == w.(clock := later.clock) && w.clock <= later.clock && FeeOwed(later).Ok?
    ensures FeeOwed(w).Ok? && PricedSupply(w) <= PricedSupply(later)
  {
    StreamingFeeIsMonotone(w.supply, w.index.params.streamingFeeBps, SaturatingSub(w.clock, w.index.lastFeeAccrual),
                           w.supply, w.index.params.streamingFeeBps,
                             SaturatingSub(later.clock, w.index.lastFeeAccrual));
  }

  // ---------------------------------------------------------------------------------------------
  // The auction view
  // ---------------------------------------------------------------------------------------------

  /** A row of the auction view shows the slot's token, its balance, its target, what stands above the
      target and what is missing below the cap. */
  lemma LegAgrees(w: World, s: Snapshot, i: nat)
    requires s.account == w.index && s.supply == w.supply && s.balances == w.vaults && Complete(s) && i < |w.vaults|
    ensures var leg := AuctionLeg(s, i);
      && leg.mint == w.index.components[i].mint && leg.balance == w.vaults[i] && leg.target == Target(w, i)
      && leg.sellable == (if w.vaults[i] > Target(w, i) then w.vaults[i] - Target(w, i) else 0)
      && leg.buyable == (if Cap(w, i) > w.vaults[i] then Cap(w, i) - w.vaults[i] else 0)
  {
    FloorBounds(w.index.components[i].targetUnits * w.supply, UNIT_SCALE);
  }

  /** The sizes an auction view shows are exactly those the leg guards accept: a positive amount passes
      if and only if it is within `sellable`, and its price within a positive `buyable` and the bidder's
      own limit. The program also needs the price and the cap of the bought leg to fit their words. */
  lemma AuctionViewIsExact(w: World, snap: Snapshot, s: nat, b: nat, sellAmount: uint64, maxBuyAmount: uint64,
                           premium: int32)
    requires snap.account == w.index && snap.supply == w.supply && snap.balances == w.vaults && Complete(snap)
    requires s < |w.vaults| && b < |w.vaults| && s != b && sellAmount > 0
    ensures BidLegs(w, s, b, sellAmount, maxBuyAmount, premium).Ok? <==>
      && Cap(w, b) <= U64_MAX
      && sellAmount <= AuctionLeg(snap, s).sellable
      && AuctionLeg(snap, b).buyable > 0
      && PriceFits(w.index.components[s], w.index.components[b], sellAmount, premium)
      && PriceOf(w.index.components[s], w.index.components[b], sellAmount, premium) <= AuctionLeg(snap, b).buyable
      && PriceOf(w.index.components[s], w.index.components[b], sellAmount, premium) <= maxBuyAmount
  {
    LegAgrees(w, snap, s);
    LegAgrees(w, snap, b);
    LegGuards(w, s, b, sellAmount, maxBuyAmount, premium);
  }

  /** The premium a view shows is the one a bid at that moment is priced at, and it shows one exactly
      while the window is open. */
  lemma ViewPremiumIsExact(w: World, snap: Snapshot)
    requires snap.account == w.index && AuctionSound(w.index, w.clock)
    ensures var r := w.index.rebalance;
      && (AuctionPremium(snap, w.clock).Some? <==> r.active && r.startTs <= w.clock <= r.endTs)
      && (AuctionPremium(snap, w.clock).Some? ==>
            PremiumAt(r.startPremiumBps, r.endPremiumBps, r.startTs, r.endTs, w.clock)
              == Ok(AuctionPremium(snap, w.clock).value))
  {
    var r := w.index.rebalance;
    if r.active {
      Math.PremiumAgrees(r.startPremiumBps, r.endPremiumBps, r.startTs, r.endTs, w.clock);
    }
  }

  /** The program prices a bid right now exactly when the fund is live and the view shows a premium
      within the index's ceiling, and prices it at that premium. */
  lemma ViewTellsOpenAuctions(w: World, snap: Snapshot)
    requires snap.account == w.index && AuctionSound(w.index, w.clock)
    ensures var shown := AuctionPremium(snap, w.clock);
      && (BidPremium(w).Ok? <==>
            w.index.status.Live? && shown.Some? && shown.value <= w.index.params.maxPremiumBps)
      && (BidPremium(w).Ok? ==> shown == Some(BidPremium(w).value))
  {
    ViewPremiumIsExact(w, snap);
  }

  /** At a premium of at most the whole the SDK prices a bid exactly when the bought component has a
      price, by the program's own steps. */
  lemma BidCostIsExact(sell: Component, buy: Component, sellAmount: nat, premium: int)
    requires premium <= BPS
    ensures Math.BidCost(sellAmount, sell.decimals, sell.refPriceE9, buy.decimals, buy.refPriceE9, premium)
         == if buy.refPriceE9 == 0 then None
           else
             var valueOut := SlotValue(sell, sellAmount);
             Some(Math.Quote(valueOut, ValueIn(valueOut, premium), PriceOf(sell, buy, sellAmount, premium)))
  {
    var valueOut := SlotValue(sell, sellAmount);
    assert Math.ValueE9(sellAmount, sell.decimals, sell.refPriceE9) == valueOut;
    Math.CeilAgrees(valueOut, BPS - premium, BPS);
    if buy.refPriceE9 > 0 {
      Math.CeilAgrees(ValueIn(valueOut, premium), Pow10(buy.decimals), buy.refPriceE9);
    }
  }

  /** So the payment quoted is the one the program charges, whenever the program can price the bid. */
  lemma QuotedPaymentIsCharged(sell: Component, buy: Component, sellAmount: uint64, premium: int32)
    requires BidPayment(sell, buy, sellAmount, premium).Ok?
    ensures var quote :=
      Math.BidCost(sellAmount, sell.decimals, sell.refPriceE9, buy.decimals, buy.refPriceE9, premium);
      quote.Some? && quote.value.buyAmount == BidPayment(sell, buy, sellAmount, premium).value
  {
    BidPaymentExactly(sell, buy, sellAmount, premium);
    BidCostIsExact(sell, buy, sellAmount, premium);
  }

  /** The SDK's NAV at reference prices is the sum the program floors its NAV from. */
  lemma SdkNavIsExact(w: World, snap: Snapshot)
    requires snap.account == w.index && snap.balances == w.vaults && Complete(snap)
    ensures NavAtReferencePrices(snap) == NavE9(w)
  {
    SdkNavFrom(w, snap, 0, 0);
    assert Values(w.index.components, w.vaults)[0..] == Values(w.index.components, w.vaults);
  }

  lemma {:induction false} SdkNavFrom(w: World, snap: Snapshot, i: nat, total: int)
    requires snap.account == w.index && snap.balances == w.vaults && Complete(snap) && i <= |w.vaults|
    ensures ReferenceNavFrom(snap, i, total) == total + Sum(Values(w.index.components, w.vaults)[i..])
    decreases |w.vaults| - i
  {
    if i == |w.vaults| {
    } else {
      SumStep(Values(w.index.components, w.vaults), i);
      SdkNavFrom(w, snap, i + 1, total + SlotValue(w.index.components[i], w.vaults[i]));
    }
  }
}
