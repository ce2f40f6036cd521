/** Which step may change what. */
module Frames {
  import opened FixedPoint
  import opened Accounts
  import opened Handlers
  import opened Shares
  import opened Effects
  import opened Runs

  /** Two tables list the same tokens in the same order. */
  ghost predicate SameTokens(cs: seq<Component>, ds: seq<Component>) {
    && |cs| == |ds|
    && forall i :: 0 <= i < |cs| ==> cs[i].mint == ds[i].mint && cs[i].decimals == ds[i].decimals
  }

  /** Two tables agree on everything an auction is run by. */
  ghost predicate SamePlan(cs: seq<Component>, ds: seq<Component>) {
    && |cs| == |ds|
    && forall i :: 0 <= i < |cs| ==> cs[i] == ds[i].(units := cs[i].units)
  }

  lemma SamePlanTransitive(a: seq<Component>, b: seq<Component>, c: seq<Component>)
    requires SamePlan(b, a) && SamePlan(c, b)
    ensures SamePlan(c, a)
  {
    forall i | 0 <= i < |c| ensures c[i] == a[i].(units := c[i].units) {
      assert b[i] == a[i].(units := b[i].units);
    }
  }

  /** Issues, redemptions and accruals touch the fee clock, the derived units, the vaults, the supply
      and the token accounts, and nothing else. */
  lemma EntryFrame(w: World, step: Step)
    requires step.DoIssue? || step.DoRedeem? || step.DoAccrue?
    requires Apply(w, step).Ok?
    ensures w.index.status.Sealed() && Settled(w).Ok?
    ensures var w' := Apply(w, step).value;
      && w' == w.(index := w.index.(lastFeeAccrual := w.clock, components := w'.index.components),
                  vaults := w'.vaults, supply := w'.supply, wallets := w'.wallets)
      && SamePlan(w'.index.components, w.index.components)
      && (w'.supply > 0 ==> InStep(w.index.components, w'))
  {
    SettledEffect(w);
    var settled := Settled(w).value;
    match step
    case DoIssue(user, to, amount, maxIn) =>
      IssueChargedEffect(settled, user, to, amount, FlatFee(amount, w.index.params.issueFeeBps).value, maxIn,
                         Apply(w, step).value);
    case DoRedeem(user, to, amount, minOut) =>
      RedeemChargedEffect(settled, user, to, amount, FlatFee(amount, w.index.params.redeemFeeBps).value, minOut,
                          Apply(w, step).value);
    case DoAccrue =>
  }

  /** A bid touches the derived units, two vaults and the token accounts, and nothing else. */
  lemma BidFrame(w: World, step: Step)
    requires step.DoBid? && Apply(w, step).Ok?
    ensures step.sell != step.buy && step.sell < |w.vaults| && step.buy < |w.vaults| && w.supply > 0
    ensures w.index.status.Live? && BidPremium(w).Ok?
    ensures var w' := Apply(w, step).value;
      && w' == w.(index := w.index.(components := w'.index.components), vaults := w'.vaults, wallets := w'.wallets)
      && SamePlan(w'.index.components, w.index.components)
      && InStep(w.index.components, w')
  {
    var buyAmount := BidLegs(w, step.sell, step.buy, step.sellAmount, step.maxBuyAmount, BidPremium(w).value).value;
    FillBidEffect(w, step.bidder, step.to, step.sell, step.buy, step.sellAmount, buyAmount, Apply(w, step).value);
  }

  /** Proposals write targets and prices, and open an auction where none was running. */
  lemma ProposeFrame(w: World, step: Step)
    requires step.DoPropose? && Apply(w, step).Ok?
    ensures w.index.status.Live? && !w.index.rebalance.active
    ensures |step.targets| == |w.vaults| && |step.prices| == |w.vaults| && 0 !in step.prices
    ensures var w' := Apply(w, step).value;
      && w' == w.(index := w.index.(components := w'.index.components, rebalance := w'.index.rebalance))
      && |w'.index.components| == |w.vaults|
      && (forall i :: 0 <= i < |w.vaults| ==>
            w'.index.components[i]
              == w.index.components[i].(refPriceE9 := step.prices[i], targetUnits := step.targets[i]))
  {
    RetargetEffect(w.index.components, step.targets, step.prices, 0);
  }

  /** Closing an auction brings the units in step and lays the targets on them. */
  lemma EndFrame(w: World, step: Step)
    requires step.DoEnd? && Apply(w, step).Ok?
    ensures w.index.rebalance.active
    ensures var w' := Apply(w, step).value;
      && w' == w.(index := w.index.(components := w'.index.components, rebalance := w'.index.rebalance))
      && !w'.index.rebalance.active
      && |w'.index.components| == |w.vaults|
      && (forall i :: 0 <= i < |w.vaults| ==>
            var c, d := w.index.components[i], w'.index.components[i];
            && d == c.(units := d.units, targetUnits := d.units)
            && d.units == DerivedUnits(c.units, w.vaults[i], w.supply))
  {
    SyncUnitsEffect(w);
    SettleEffect(SyncUnits(w).value.index.components, 0);
  }

  /** Time passes only in a wait, and the fee clock follows it. */
  lemma ClockFrame(w: World, step: Step)
    ensures w.clock <= Next(w, step).clock
    ensures !step.Wait? ==> Next(w, step).clock == w.clock
    ensures Next(w, step).index.lastFeeAccrual == w.index.lastFeeAccrual
      || Next(w, step).index.lastFeeAccrual == w.clock
  {
    if Apply(w, step).Ok? {
      match step
      case DoIssue(_, _, _, _) => EntryFrame(w, step);
      case DoRedeem(_, _, _, _) => EntryFrame(w, step);
      case DoAccrue => EntryFrame(w, step);
      case DoBid(_, _, _, _, _, _) => BidFrame(w, step);
      case DoPropose(_, _, _, _) => ProposeFrame(w, step);
      case DoEnd(_) => EndFrame(w, step);
      case _ =>
    }
  }

  /** Outside setting up, a step keeps the tokens of the table; and only a proposal or a close
      rewrites what an auction is run by. */
  lemma TableFrame(w: World, step: Step)
    ensures w.index.status.Sealed() ==> SameTokens(Next(w, step).index.components, w.index.components)
    ensures !step.DoInit? && !step.DoAddComponent? ==> SameTokens(Next(w, step).index.components, w.index.components)
    ensures w.index.status.Sealed() && !step.DoPropose? && !step.DoEnd? ==>
      && SamePlan(Next(w, step).index.components, w.index.components)
      && Next(w, step).index.rebalance == w.index.rebalance
  {
    if Apply(w, step).Ok? {
      match step
      case DoIssue(_, _, _, _) => EntryFrame(w, step);
      case DoRedeem(_, _, _, _) => EntryFrame(w, step);
      case DoAccrue => EntryFrame(w, step);
      case DoBid(_, _, _, _, _, _) => BidFrame(w, step);
      case DoPropose(_, _, _, _) => ProposeFrame(w, step);
      case DoEnd(_) => EndFrame(w, step);
      case _ =>
    }
  }

  /** Parameters are written only when the index is created and by the governor. */
  lemma ParamsFrame(w: World, step: Step)
    requires !step.DoInit? && !step.DoSetParams?
    ensures Next(w, step).index.params == w.index.params
  {
    if Apply(w, step).Ok? {
      match step
      case DoIssue(_, _, _, _) => EntryFrame(w, step);
      case DoRedeem(_, _, _, _) => EntryFrame(w, step);
      case DoAccrue => EntryFrame(w, step);
      case DoBid(_, _, _, _, _, _) => BidFrame(w, step);
      case DoPropose(_, _, _, _) => ProposeFrame(w, step);
      case DoEnd(_) => EndFrame(w, step);
      case _ =>
    }
  }

  /** The supply moves only when somebody enters, leaves, burns, or the fee is minted. */
  lemma SupplyFrame(w: World, step: Step)
    requires !step.DoIssue? && !step.DoRedeem? && !step.DoAccrue? && !step.Burn?
    ensures Next(w, step).supply == w.supply
  {
    if Apply(w, step).Ok? {
      match step
      case DoBid(_, _, _, _, _, _) => BidFrame(w, step);
      case DoPropose(_, _, _, _) => ProposeFrame(w, step);
      case DoEnd(_) => EndFrame(w, step);
      case _ =>
    }
  }

  /** Once sealed, always sealed; the status moves only by sealing and by the pause switch. */
  lemma StatusFrame(w: World, step: Step)
    ensures w.index.status.Sealed() ==> Next(w, step).index.status.Sealed()
    ensures !step.DoInit? && !step.DoSeal? && !step.DoSetPaused? ==> Next(w, step).index.status == w.index.status
  {
    if Apply(w, step).Ok? {
      match step
      case DoIssue(_, _, _, _) => EntryFrame(w, step);
      case DoRedeem(_, _, _, _) => EntryFrame(w, step);
      case DoAccrue => EntryFrame(w, step);
      case DoBid(_, _, _, _, _, _) => BidFrame(w, step);
      case DoPropose(_, _, _, _) => ProposeFrame(w, step);
      case DoEnd(_) => EndFrame(w, step);
      case _ =>
    }
  }

  /** A vault falls only in a redemption or in a bid. */
  lemma VaultFrame(w: World, step: Step, i: nat)
    requires i < |w.vaults| && w.index.status.Sealed()
    ensures |Next(w, step).vaults| == |w.vaults|
    ensures !step.DoRedeem? && !step.DoBid? ==> Next(w, step).vaults[i] >= w.vaults[i]
  {
    TableFrame(w, step);
    if Apply(w, step).Ok? {
      match step
      case DoIssue(user, to, amount, maxIn) =>
        SettledEffect(w);
        IssueChargedEffect(Settled(w).value, user, to, amount, FlatFee(amount, w.index.params.issueFeeBps).value,
                           maxIn, Apply(w, step).value);
      case DoAccrue => SettledEffect(w);
      case DoPropose(_, _, _, _) => ProposeFrame(w, step);
      case DoEnd(_) => EndFrame(w, step);
      case _ =>
    }
  }
}
