/** Targets and units of a fund between auctions. */
module Targets {
  import opened Words
  import opened Division
  import opened FixedPoint
  import opened Shares
  import opened Accounts
  import opened Tokens
  import opened Handlers
  import opened Effects
  import opened Runs
  import opened Frames
  import opened Invariant
  import opened Holders

  /** Every target is the unit count beside it. */
  ghost predicate TargetsLevel(w: World) {
    forall i :: 0 <= i < |w.vaults| ==> w.index.components[i].targetUnits == w.index.components[i].units
  }

  /** Closing an auction leaves targets level with units. */
  lemma ClosingLevelsTargets(w: World, step: Step)
    requires step.DoEnd? && Apply(w, step).Ok?
    ensures TargetsLevel(Next(w, step)) && !Next(w, step).index.rebalance.active
  {
    EndFrame(w, step);
  }

  // ---------------------------------------------------------------------------------------------
  // When a sync rewrites nothing
  // ---------------------------------------------------------------------------------------------

  /** `units` is what a vault with this balance is worth at this supply. */
  predicate Holds(units: nat, balance: nat, supply: nat) {
    supply == 0 || units * supply <= balance * UNIT_SCALE < (units + 1) * supply
  }

  lemma HoldsExactly(units: nat, balance: nat, supply: nat)
    ensures DerivedUnits(units, balance, supply) == units <==> Holds(units, balance, supply)
  {
    if supply > 0 {
      FloorBounds(balance * UNIT_SCALE, supply);
      if Holds(units, balance, supply) {
        FloorAtLeast(units, balance * UNIT_SCALE, supply);
        FloorBelow(units + 1, balance * UNIT_SCALE, supply);
      }
    }
  }

  /** The units of slot `i` after an exit of `net` are still held. */
  ghost predicate HeldAfterExit(w: World, net: int, i: nat)
    requires i < |w.vaults|
  {
    var units, supply := w.index.components[i].units, PricedSupply(w);
    if 0 <= net < supply && Proceeds(w, net, i) <= w.vaults[i]
    then Holds(units, w.vaults[i] - Proceeds(w, net, i), supply - net)
    else Holds(units, w.vaults[i], supply)
  }

  /** What a step that syncs leaves in slot `i`, and the supply it leaves, still hold the units of that
      slot: a test on the record, the vault and the supply before the step. */
  ghost predicate UnitsStay(w: World, step: Step, i: nat)
    requires i < |w.vaults|
  {
    var units, balance, supply := w.index.components[i].units, w.vaults[i], PricedSupply(w);
    match step
    case DoAccrue => Holds(units, balance, supply)
    case DoIssue(_, _, amount, _) => Holds(units, balance + Cost(w, Gross(w, amount), i), supply + Gross(w, amount))
    case DoRedeem(_, _, amount, _) => HeldAfterExit(w, Net(w, amount), i)
    case _ => true
  }

  lemma AccrualLeaves(w: World, step: Step, w': World, i: nat)
    requires step.DoAccrue? && Apply(w, step) == Ok(w') && i < |w.vaults|
    ensures |w'.vaults| == |w.vaults| && w'.index.components[i].units == PricedUnits(w, i)
  {
    SettledPrices(w, w', i);
  }

  lemma AccrualKeepsUnitsExactly(w: World, step: Step, w': World, i: nat)
    requires step.DoAccrue? && Apply(w, step) == Ok(w') && i < |w.vaults|
    ensures |w'.vaults| == |w.vaults|
    ensures w'.index.components[i].units == w.index.components[i].units <==> UnitsStay(w, step, i)
  {
    AccrualLeaves(w, step, w', i);
    HoldsExactly(w.index.components[i].units, w.vaults[i], PricedSupply(w));
  }

  lemma IssuedSlotKeepsUnitsExactly(w: World, w': World, gross: nat, i: nat)
    requires i < |w.vaults| && IssuedSlot(w, w', gross, i) && gross > 0
    ensures w'.index.components[i].units == w.index.components[i].units
       <==> Holds(w.index.components[i].units, w.vaults[i] + Cost(w, gross, i), PricedSupply(w) + gross)
  {
    HoldsExactly(w.index.components[i].units, w'.vaults[i], w'.supply);
  }

  lemma IssueKeepsUnitsExactly(w: World, step: Step, w': World, i: nat)
    requires step.DoIssue? && Apply(w, step) == Ok(w') && i < |w.vaults|
    ensures |w'.vaults| == |w.vaults|
    ensures w'.index.components[i].units == w.index.components[i].units <==> UnitsStay(w, step, i)
  {
    IssueMoves(w, step.user, step.to, step.amount, step.maxIn, w', i);
    IssuedSlotKeepsUnitsExactly(w, w', Gross(w, step.amount), i);
  }

  lemma RedeemedSlotKeepsUnitsExactly(w: World, w': World, net: nat, i: nat)
    requires i < |w.vaults| && RedeemedSlot(w, w', net, i)
    ensures w'.index.components[i].units == w.index.components[i].units <==> HeldAfterExit(w, net, i)
  {
    HoldsExactly(w.index.components[i].units, w.vaults[i], PricedSupply(w));
    HoldsExactly(w.index.components[i].units, w'.vaults[i], w'.supply);
  }

  lemma RedeemKeepsUnitsExactly(w: World, step: Step, w': World, i: nat)
    requires step.DoRedeem? && Apply(w, step) == Ok(w') && i < |w.vaults|
    ensures |w'.vaults| == |w.vaults|
    ensures w'.index.components[i].units == w.index.components[i].units <==> UnitsStay(w, step, i)
  {
    RedeemMoves(w, step.user, step.to, step.amount, step.minOut, w', i);
    RedeemedSlotKeepsUnitsExactly(w, w', Net(w, step.amount), i);
  }

  /** While no auction runs and none is proposed no step writes a target; and which steps leave the
      units beside it alone can be told before the step. */
  lemma IdleUnitsStayExactly(w: World, step: Step, w': World, i: nat)
    requires w.index.status.Sealed() && !w.index.rebalance.active && !step.DoPropose?
    requires Apply(w, step) == Ok(w') && i < |w.vaults|
    ensures |w'.vaults| == |w.vaults| && w'.index.components[i].targetUnits == w.index.components[i].targetUnits
    ensures w'.index.components[i].units == w.index.components[i].units <==> UnitsStay(w, step, i)
  {
    TableFrame(w, step);
    assert w'.index.components[i] == w.index.components[i].(units := w'.index.components[i].units);
    if step.DoAccrue? {
      AccrualKeepsUnitsExactly(w, step, w', i);
    } else if step.DoIssue? {
      IssueKeepsUnitsExactly(w, step, w', i);
    } else if step.DoRedeem? {
      RedeemKeepsUnitsExactly(w, step, w', i);
    }
  }

  /** So targets that are level stay level through an accrual, an issue or a redemption exactly when
      every vault and the supply it leaves still hold the units there were, and through every other
      step. */
  lemma IdleTargetsLevelExactly(w: World, step: Step)
    requires w.index.status.Sealed() && !w.index.rebalance.active && !step.DoPropose? && TargetsLevel(w)
    ensures TargetsLevel(Next(w, step))
       <==> Apply(w, step).Err? || forall i :: 0 <= i < |w.vaults| ==> UnitsStay(w, step, i)
  {
    if Apply(w, step).Ok? {
      var w' := Next(w, step);
      TableFrame(w, step);
      forall i | 0 <= i < |w.vaults|
        ensures w'.index.components[i].targetUnits == w'.index.components[i].units <==> UnitsStay(w, step, i)
      {
        IdleUnitsStayExactly(w, step, w', i);
      }
    }
  }

  // ---------------------------------------------------------------------------------------------
  // A fund whose units move
  // ---------------------------------------------------------------------------------------------

  /** A fund of one component, level, into whose vault five base units have been donated. */
  function DonatedFund(): World {
    World(Index(Live, 0, 0, 0, 0, 0, Params(0, 0, 0, 0, 300), [Component(1, 10, 10, 0, 0)], NO_REBALANCE),
          [15], UNIT_SCALE, map[Account(7, IndexMint) := UNIT_SCALE], 0)
  }

  /** And the units do move alone: after the next accrual of that sound, idle fund its units are 15
      while its target is still 10. */
  lemma IdleTargetsDrift()
    ensures Sound(DonatedFund()) && TargetsLevel(DonatedFund()) && !DonatedFund().index.rebalance.active
    ensures !TargetsLevel(Next(DonatedFund(), DoAccrue))
  {
    var w := DonatedFund();
    TotalUpdate(map[], Account(7, IndexMint), UNIT_SCALE, IndexMint);
    assert Sound(w);
    assert Accrue(w) == Ok(w);
    SyncUnitsEffect(w);
    assert 15 * UNIT_SCALE / UNIT_SCALE == 15;
    assert DerivedUnits(10, 15, UNIT_SCALE) == 15;
    var w' := Next(w, DoAccrue);
    assert Resynced(w.index.components[0], w'.index.components[0], 15, UNIT_SCALE);
    assert w'.index.components[0].units == 15 && w'.index.components[0].targetUnits == 10;
  }
}
