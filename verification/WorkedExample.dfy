/** The worked example of the auction document, proved of the model: a fund of ten index tokens
    backed by 20 of a one-dollar component and 5 of a hundred-dollar one, whose manager wants $250 moved
    out of the second into the first. */
module WorkedExample {
  import opened Words
  import opened Division
  import opened FixedPoint
  import opened Shares
  import opened Accounts
  import opened Tokens
  import opened Handlers
  import opened Effects
  import opened Runs
  import opened Invariant
  import opened Launch

  /** The trader founds the fund with ten tokens; the manager then proposes. The auction opens at 300
      with a premium of -50 basis points, closes at 3900 with one of 150, and declares no loss on a NAV
      of $520. */
  function ExamplePlan(): Plan {
    Plan(Leg(6, 2_000_000, 520_000_000, 27_000_000, 1_000_000_000),
         Leg(9, 500_000_000, 10_000_000_000, 250_000_000, 100_000_000_000),
         10, 1_000, AuctionParams(3_600, -50, 150, 0))
  }

  /** The fund at a moment of that auction, with these vaults; the trader holds the rest. */
  function ExampleFund(now: int64, a: uint64, b: uint64): World
    requires a <= 520_000_000 && b <= 10_000_000_000
  {
    World(Index(Live, GOVERNOR, MANAGER, COLLECTOR, 0, 0, Params(0, 0, 0, 1_000, 300),
                [Component(1, a / 10, 27_000_000, 1_000_000_000, 6),
                 Component(2, b / 10, 250_000_000, 100_000_000_000, 9)],
                Rebalance(true, MANAGER, 0, 300, 3_900, 520_000_000, -50, 150, 0)),
          [a, b], 10_000_000_000,
          map[Account(TRADER, ComponentMint(1)) := 520_000_000 - a,
              Account(TRADER, ComponentMint(2)) := 10_000_000_000 - b,
              Account(TRADER, IndexMint) := 10_000_000_000],
          now)
  }

  /** The example's fund is reached from before the index exists. */
  lemma ExampleFundIsReachable(now: nat) returns (worlds: seq<World>, steps: seq<Step>)
    requires now <= I64_MAX
    ensures Run(worlds, steps) && Genesis(worlds[0]) && worlds[|steps|] == ExampleFund(now, 20_000_000, 5_000_000_000)
    ensures Sound(ExampleFund(now, 20_000_000, 5_000_000_000))
  {
    var p := ExamplePlan();
    ExampleNav(ProposedTable(p), 20_000_000, 5_000_000_000, 520_000_000);
    worlds, steps := OpenFundIsReachable(p, 520_000_000, 520_000_000, now);
    assert OpenFund(p, 520_000_000, now) == ExampleFund(now, 20_000_000, 5_000_000_000);
  }

  const SOLD: uint64 := 2_500_000_000

  lemma ExampleTargets(w: World)
    requires w.supply == 10_000_000_000
    ensures TargetBalance(27_000_000, w.supply) == Ok(270_000_000)
      && TargetBalance(250_000_000, w.supply) == Ok(2_500_000_000)
    ensures BuyCap(270_000_000, 1_000) == Ok(297_000_000)
  {
  }

  /** What 2.5 of the second component cost in the first at a premium. */
  lemma ExamplePayment(sell: Component, buy: Component, premium: int32, payment: uint64)
    requires sell.decimals == 9 && sell.refPriceE9 == 100_000_000_000
    requires buy.decimals == 6 && buy.refPriceE9 == 1_000_000_000
    requires -1_000 <= premium <= 1_000 && payment == 25_000 * (BPS - premium)
    ensures BidPayment(sell, buy, SOLD, premium) == Ok(payment)
  {
    assert Pow10(9) == 1_000_000_000 && Pow10(6) == 1_000_000;
    assert ValueE9(SOLD, 9, 100_000_000_000) == Ok(250_000_000_000);
    var valueIn: uint128 := 25_000_000 * (BPS - premium);
    CeilAtMost(valueIn, 250_000_000_000 * (BPS - premium), BPS);
    CeilAbove(valueIn - 1, 250_000_000_000 * (BPS - premium), BPS);
    assert MulDivCeil(250_000_000_000, BPS - premium, BPS) == Ok(valueIn);
    CeilAtMost(payment, valueIn * 1_000_000, 1_000_000_000);
    CeilAbove(payment - 1, valueIn * 1_000_000, 1_000_000_000);
    assert MulDivCeil(valueIn, 1_000_000, 1_000_000_000) == Ok(payment);
  }

  lemma ExampleNav(cs: seq<Component>, a: uint64, b: uint64, nav: uint64)
    requires |cs| == 2 && a <= 1_000_000_000 && b <= 10_000_000_000
    requires cs[0].decimals == 6 && cs[0].refPriceE9 == 1_000_000_000
    requires cs[1].decimals == 9 && cs[1].refPriceE9 == 100_000_000_000
    requires nav * 1_000 == a * 1_000 + b * 100
    ensures NavE6(cs, [a, b]) == Ok(nav)
  {
    assert Pow10(9) == 1_000_000_000 && Pow10(6) == 1_000_000;
    FloorBounds(a * 1_000_000_000, 1_000_000);
    FloorBounds(b * 100_000_000_000, 1_000_000_000);
    var x: uint128, y: uint128 := a * 1_000, b * 100;
    assert ValueE9(a, 6, 1_000_000_000) == Ok(x);
    assert ValueE9(b, 9, 100_000_000_000) == Ok(y);
    assert NavFrom(cs, [a, b], 2, x + y) == Ok(x + y);
    assert NavFrom(cs, [a, b], 1, x) == Ok(x + y);
  }

  lemma ExampleTransfers(w: World, w': World) returns (paid: World, filled: World)
    requires w == ExampleFund(300, 20_000_000, 5_000_000_000) && w' == ExampleFund(300, 271_250_000, 2_500_000_000)
    ensures |paid.vaults| == 2 && filled == w.(vaults := w'.vaults, wallets := w'.wallets)
    ensures TransferFromUser(w, TRADER, 0, 251_250_000) == Ok(paid)
      && TransferFromVault(paid, 1, TRADER, SOLD) == Ok(filled)
  {
    paid := TransferFromUser(w, TRADER, 0, 251_250_000).value;
    filled := TransferFromVault(paid, 1, TRADER, SOLD).value;
    assert filled.vaults == w'.vaults;
    assert filled.wallets == w'.wallets;
  }

  lemma ExampleSync(w: World, filled: World, w': World)
    requires w == ExampleFund(300, 20_000_000, 5_000_000_000) && w' == ExampleFund(300, 271_250_000, 2_500_000_000)
    requires filled == w.(vaults := w'.vaults, wallets := w'.wallets)
    ensures SyncUnits(filled) == Ok(w')
  {
    SyncUnitsEffect(filled);
    assert forall i :: 0 <= i < 2 ==>
      DerivedUnits(filled.index.components[i].units, filled.vaults[i], filled.supply) <= U64_MAX;
    var synced := SyncUnits(filled).value;
    assert Resynced(filled.index.components[0], synced.index.components[0], 271_250_000, 10_000_000_000);
    assert Resynced(filled.index.components[1], synced.index.components[1], 2_500_000_000, 10_000_000_000);
    assert synced.index.components == w'.index.components;
  }

  lemma ExampleFill(w: World, w': World)
    requires w == ExampleFund(300, 20_000_000, 5_000_000_000) && w' == ExampleFund(300, 271_250_000, 2_500_000_000)
    ensures FillBid(w, TRADER, TRADER, 1, 0, SOLD, 251_250_000) == Ok(w')
  {
    var paid, filled := ExampleTransfers(w, w');
    ExampleNav(filled.index.components, 271_250_000, 2_500_000_000, 521_250_000);
    ExampleSync(w, filled, w');
    FillBidStages(w, TRADER, TRADER, 1, 0, SOLD, 251_250_000, paid, filled, 521_250_000, w');
  }

  lemma OpeningBid(w: World, w': World)
    requires w == ExampleFund(300, 20_000_000, 5_000_000_000) && w' == ExampleFund(300, 271_250_000, 2_500_000_000)
    ensures Bid(w, TRADER, TRADER, 1, 0, SOLD, 300_000_000) == Ok(w')
  {
    assert BidPremium(w) == Ok(-50);
    ExampleTargets(w);
    ExamplePayment(w.index.components[1], w.index.components[0], -50, 251_250_000);
    assert BidLegs(w, 1, 0, SOLD, 300_000_000, -50) == Ok(251_250_000);
    ExampleFill(w, w');
  }

  /** At the open the trader takes 2.5 of the second component for 251.25 of the first; the fund ends with
      271.25 and 2.5, and its NAV is $521.25. */
  lemma OpeningBidFills(w: World, w': World)
    requires w == ExampleFund(300, 20_000_000, 5_000_000_000) && w' == ExampleFund(300, 271_250_000, 2_500_000_000)
    ensures Sound(w) && Bid(w, TRADER, TRADER, 1, 0, SOLD, 300_000_000) == Ok(w')
    ensures NavE6(w'.index.components, w'.vaults) == Ok(521_250_000)
  {
    var worlds, steps := ExampleFundIsReachable(300);
    OpeningBid(w, w');
    ExampleNav(w'.index.components, 271_250_000, 2_500_000_000, 521_250_000);
  }

  lemma ClosingBid(w: World)
    requires w == ExampleFund(3_900, 20_000_000, 5_000_000_000)
    ensures Bid(w, TRADER, TRADER, 1, 0, SOLD, 300_000_000) == Err(NavFloorBreached)
  {
    assert BidPremium(w) == Ok(150);
    ExampleTargets(w);
    ExamplePayment(w.index.components[1], w.index.components[0], 150, 246_250_000);
    assert BidLegs(w, 1, 0, SOLD, 300_000_000, 150) == Ok(246_250_000);
    var paid := TransferFromUser(w, TRADER, 0, 246_250_000).value;
    var filled := TransferFromVault(paid, 1, TRADER, SOLD).value;
    assert filled.vaults == [266_250_000, 2_500_000_000];
    ExampleNav(filled.index.components, 266_250_000, 2_500_000_000, 516_250_000);
  }

  /** At the close the same amount costs 246.25, which would leave $516.25; since the proposal declared
      no loss, the program refuses that bid. */
  lemma ClosingBidIsRefused(w: World)
    requires w == ExampleFund(3_900, 20_000_000, 5_000_000_000)
    ensures Sound(w) && Bid(w, TRADER, TRADER, 1, 0, SOLD, 300_000_000) == Err(NavFloorBreached)
  {
    var worlds, steps := ExampleFundIsReachable(3_900);
    ClosingBid(w);
  }

  /** The fund after the trader has entered with one more index token. */
  function EnteredFund(): World {
    var w := ExampleFund(300, 20_000_000, 5_000_000_000);
    w.(index := w.index.(lastFeeAccrual := 300), vaults := [22_000_000, 5_500_000_000], supply := 11_000_000_000,
       wallets := map[Account(TRADER, ComponentMint(1)) := 498_000_000,
                      Account(TRADER, ComponentMint(2)) := 4_500_000_000,
                      Account(TRADER, IndexMint) := 11_000_000_000])
  }

  /** A sync of either fund finds its units in step. */
  lemma ExampleInStep(w: World, a: uint64, b: uint64)
    requires w.index == LeftFund().index && w.vaults == [a, b] && w.supply > 0
    requires a * UNIT_SCALE / w.supply == 2_000_000 && b * UNIT_SCALE / w.supply == 500_000_000
    ensures SyncUnits(w) == Ok(w)
  {
    SyncUnitsEffect(w);
    assert forall i :: 0 <= i < 2 ==> DerivedUnits(w.index.components[i].units, w.vaults[i], w.supply) <= U64_MAX;
    var synced := SyncUnits(w).value;
    assert Resynced(w.index.components[0], synced.index.components[0], a, w.supply);
    assert Resynced(w.index.components[1], synced.index.components[1], b, w.supply);
    assert synced.index.components == w.index.components;
  }

  /** The fund after the trader has left again. */
  function LeftFund(): World {
    var w := ExampleFund(300, 20_000_000, 5_000_000_000);
    w.(index := w.index.(lastFeeAccrual := 300))
  }

  /** One slot of a delivery. */
  lemma DeliverOne(w: World, user: Key, maxIn: seq<uint64>, gross: uint64, i: nat, amount: uint64, next: World)
    requires |maxIn| == |w.vaults| == |next.vaults| && i < |w.vaults| && amount <= maxIn[i]
    requires UnitsIn(w.index.components[i].units, gross) == Ok(amount)
      && TransferFromUser(w, user, i, amount) == Ok(next)
    ensures DeliverFrom(w, user, maxIn, gross, i) == DeliverFrom(next, user, maxIn, gross, i + 1)
  {
  }

  /** The fund and the trader once both components of the entry have been paid. */
  function DeliveredFund(): World {
    EnteredFund().(supply := 10_000_000_000,
      wallets := map[Account(TRADER, ComponentMint(1)) := 498_000_000,
                     Account(TRADER, ComponentMint(2)) := 4_500_000_000,
                     Account(TRADER, IndexMint) := 10_000_000_000])
  }

  lemma EntryTransfers(w: World) returns (first: World)
    requires w == LeftFund()
    ensures |first.vaults| == 2 && first.index == w.index
    ensures TransferFromUser(w, TRADER, 0, 2_000_000) == Ok(first)
    ensures TransferFromUser(first, TRADER, 1, 500_000_000) == Ok(DeliveredFund())
  {
    first := TransferFromUser(w, TRADER, 0, 2_000_000).value;
    assert first.vaults[1 := 5_500_000_000] == DeliveredFund().vaults;
    assert first.wallets[Account(TRADER, ComponentMint(2)) := 4_500_000_000] == DeliveredFund().wallets;
  }

  lemma ExampleDelivery(w: World)
    requires w == LeftFund()
    ensures DeliverFrom(w, TRADER, [2_000_000, 500_000_000], UNIT_SCALE, 0) == Ok(DeliveredFund())
  {
    CeilAtMost(2_000_000, 2_000_000 * UNIT_SCALE, UNIT_SCALE);
    CeilAtMost(500_000_000, 500_000_000 * UNIT_SCALE, UNIT_SCALE);
    assert UnitsIn(2_000_000, UNIT_SCALE) == Ok(2_000_000) && UnitsIn(500_000_000, UNIT_SCALE) == Ok(500_000_000);
    var first := EntryTransfers(w);
    DeliverOne(w, TRADER, [2_000_000, 500_000_000], UNIT_SCALE, 0, 2_000_000, first);
    DeliverOne(first, TRADER, [2_000_000, 500_000_000], UNIT_SCALE, 1, 500_000_000, DeliveredFund());
  }

  lemma ExamplePayout(w: World)
    requires w == DeliveredFund()
    ensures PayOutFrom(w, TRADER, [2_000_000, 500_000_000], UNIT_SCALE, 0) == Ok(LeftFund())
  {
    assert UnitsOut(2_000_000, UNIT_SCALE) == Ok(2_000_000) && UnitsOut(500_000_000, UNIT_SCALE) == Ok(500_000_000);
    var first := TransferFromVault(w, 0, TRADER, 2_000_000).value;
    var second := TransferFromVault(first, 1, TRADER, 500_000_000).value;
    assert second.vaults == LeftFund().vaults;
    assert second.wallets == LeftFund().wallets;
    assert PayOutFrom(first, TRADER, [2_000_000, 500_000_000], UNIT_SCALE, 1) == Ok(second);
  }

  lemma Entering(w: World, w': World)
    requires w == ExampleFund(300, 20_000_000, 5_000_000_000) && w' == EnteredFund()
    ensures Issue(w, TRADER, TRADER, UNIT_SCALE, [2_000_000, 500_000_000]) == Ok(w')
  {
    assert Accrue(w) == Ok(LeftFund());
    ExampleInStep(LeftFund(), 20_000_000, 5_000_000_000);
    assert FlatFee(UNIT_SCALE, 0) == Ok(0);
    ExampleDelivery(LeftFund());
    EntryMints(w');
    ExampleInStep(w', 22_000_000, 5_500_000_000);
    IssueChargedByStages(LeftFund(), TRADER, TRADER, UNIT_SCALE, 0, [2_000_000, 500_000_000], DeliveredFund(), w', w',
                         w');
    IssueByStages(w, TRADER, TRADER, UNIT_SCALE, [2_000_000, 500_000_000], LeftFund(), 0, w');
  }

  lemma EntryMints(w': World)
    requires w' == EnteredFund()
    ensures MintIndexTokens(DeliveredFund(), TRADER, UNIT_SCALE) == Ok(w')
      && MintIndexTokens(w', COLLECTOR, 0) == Ok(w')
  {
    assert DeliveredFund().wallets[Account(TRADER, IndexMint) := 11_000_000_000] == w'.wallets;
  }

  lemma SoundAfter(w: World, step: Step, w': World)
    requires Sound(w) && Apply(w, step) == Ok(w')
    ensures Sound(w')
  {
    SoundKept(w, step);
  }

  lemma IssueStep(w: World, user: Key, to: Key, amount: uint64, maxIn: seq<uint64>, w': World)
    requires Issue(w, user, to, amount, maxIn) == Ok(w')
    ensures Apply(w, DoIssue(user, to, amount, maxIn)) == Ok(w')
  {
  }

  /** One index token costs a tenth of what backs ten: 2 of the first component and 0.5 of the second. */
  lemma EnteringCostsATenth(w: World, w': World)
    requires w == ExampleFund(300, 20_000_000, 5_000_000_000) && w' == EnteredFund()
    ensures Sound(w) && Issue(w, TRADER, TRADER, UNIT_SCALE, [2_000_000, 500_000_000]) == Ok(w') && Sound(w')
  {
    var worlds, steps := ExampleFundIsReachable(300);
    Entering(w, w');
    IssueStep(w, TRADER, TRADER, UNIT_SCALE, [2_000_000, 500_000_000], w');
    SoundAfter(w, DoIssue(TRADER, TRADER, UNIT_SCALE, [2_000_000, 500_000_000]), w');
  }

  lemma Leaving(w: World, w': World)
    requires w == EnteredFund() && w' == LeftFund()
    ensures Redeem(w, TRADER, TRADER, UNIT_SCALE, [2_000_000, 500_000_000]) == Ok(w')
  {
    assert Accrue(w) == Ok(w);
    ExampleInStep(w, 22_000_000, 5_500_000_000);
    assert FlatFee(UNIT_SCALE, 0) == Ok(0);
    assert BurnIndexTokens(w, TRADER, UNIT_SCALE) == Ok(DeliveredFund()) by {
      assert w.wallets[Account(TRADER, IndexMint) := 10_000_000_000] == DeliveredFund().wallets;
    }
    assert MintIndexTokens(DeliveredFund(), COLLECTOR, 0) == Ok(DeliveredFund());
    ExamplePayout(DeliveredFund());
    ExampleInStep(w', 20_000_000, 5_000_000_000);
  }

  /** And leaving at once pays exactly that back. */
  lemma LeavingPaysATenth(w: World, w': World)
    requires w == EnteredFund() && w' == LeftFund()
    ensures Sound(w) && Redeem(w, TRADER, TRADER, UNIT_SCALE, [2_000_000, 500_000_000]) == Ok(w')
    ensures w'.vaults == [20_000_000, 5_000_000_000] && w'.supply == 10_000_000_000
  {
    EnteringCostsATenth(ExampleFund(300, 20_000_000, 5_000_000_000), w);
    Leaving(w, w');
  }

  lemma WaitStep(w: World, seconds: nat, w': World)
    requires w.clock + seconds <= I64_MAX && w' == w.(clock := w.clock + seconds)
    ensures Apply(w, Step.Wait(seconds)) == Ok(w')
  {
  }

  lemma LateBid(w: World)
    requires w == EnteredFund().(clock := 3_900)
    ensures var r := Bid(w, TRADER, TRADER, 1, 0, SOLD, 300_000_000);
      r.Ok? && NavE6(r.value.index.components, r.value.vaults) == Ok(568_250_000)
  {
    assert BidPremium(w) == Ok(150);
    ExamplePayment(w.index.components[1], w.index.components[0], 150, 246_250_000);
    EnteredLegs(w);
    EnteredFill(w);
    var w' := FillBid(w, TRADER, TRADER, 1, 0, SOLD, 246_250_000).value;
    ExampleNav(w'.index.components, 268_250_000, 3_000_000_000, 568_250_000);
  }

  /** The entry raised NAV to $572 while the floor stayed at $520. So at the close the bid that the
      smaller fund refused is accepted, and costs its holders $3.75 though the proposal declared no loss. */
  lemma EntryMakesRoomBelowNav(w: World)
    requires w == EnteredFund().(clock := 3_900)
    ensures Sound(w) && w.index.rebalance.maxNavLossBps == 0 && NavE6(w.index.components, w.vaults) == Ok(572_000_000)
    ensures var r := Bid(w, TRADER, TRADER, 1, 0, SOLD, 300_000_000);
      r.Ok? && NavE6(r.value.index.components, r.value.vaults) == Ok(568_250_000)
  {
    EnteringCostsATenth(ExampleFund(300, 20_000_000, 5_000_000_000), EnteredFund());
    WaitStep(EnteredFund(), 3_600, w);
    SoundAfter(EnteredFund(), Step.Wait(3_600), w);
    ExampleNav(w.index.components, 22_000_000, 5_500_000_000, 572_000_000);
    LateBid(w);
  }

  lemma EnteredLegs(w: World)
    requires w == EnteredFund().(clock := 3_900)
    requires BidPayment(w.index.components[1], w.index.components[0], SOLD, 150) == Ok(246_250_000)
    ensures BidLegs(w, 1, 0, SOLD, 300_000_000, 150) == Ok(246_250_000)
  {
    assert TargetBalance(27_000_000, w.supply) == Ok(297_000_000)
      && TargetBalance(250_000_000, w.supply) == Ok(2_750_000_000);
    assert BuyCap(297_000_000, 1_000) == Ok(326_700_000);
  }

  lemma EnteredFill(w: World)
    requires w == EnteredFund().(clock := 3_900)
    ensures var r := FillBid(w, TRADER, TRADER, 1, 0, SOLD, 246_250_000);
      && r.Ok? && r.value.vaults == [268_250_000, 3_000_000_000] && |r.value.index.components| == 2
      && forall i :: 0 <= i < 2 ==>
           r.value.index.components[i] == w.index.components[i].(units := r.value.index.components[i].units)
  {
    var paid := TransferFromUser(w, TRADER, 0, 246_250_000).value;
    var filled := TransferFromVault(paid, 1, TRADER, SOLD).value;
    assert filled.vaults == [268_250_000, 3_000_000_000];
    ExampleNav(filled.index.components, 268_250_000, 3_000_000_000, 568_250_000);
    SyncUnitsEffect(filled);
    assert forall i :: 0 <= i < 2 ==>
      DerivedUnits(filled.index.components[i].units, filled.vaults[i], filled.supply) <= U64_MAX;
    var synced := SyncUnits(filled).value;
    assert forall i :: 0 <= i < 2 ==>
      Resynced(filled.index.components[i], synced.index.components[i], filled.vaults[i], filled.supply);
  }
}
