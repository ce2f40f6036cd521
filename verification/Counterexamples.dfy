/** Inputs on which a promise of the documentation fails, each a world that a run reaches from before
    the index exists. */
module Counterexamples {
  import opened Words
  import opened Division
  import opened FixedPoint
  import opened Shares
  import opened Accounts
  import opened Tokens
  import opened Handlers
  import opened Effects
  import opened Runs
  import opened Invariant
  import opened Auctions
  import opened Convergence
  import opened Protocol
  import opened Launch

  // ---------------------------------------------------------------------------------------------
  // Back and forth inside the bands
  // ---------------------------------------------------------------------------------------------

  /** One index token over two legs worth a nanodollar a unit, both targets 1000 and both caps 1100. */
  function LevelPlan(): Plan {
    var leg := Leg(0, 1_050, 2_000, 1_000, 1);
    Plan(leg, leg, 1, 1_000, AuctionParams(700, 0, 0, 0))
  }

  /** The fund of that plan, in its auction at par, with these vaults; the trader holds the rest. */
  function LevelFund(first: uint64, second: uint64): World
    requires first <= 2_000 && second <= 2_000
  {
    World(Index(Live, GOVERNOR, MANAGER, COLLECTOR, 0, 0, Params(0, 0, 0, 1_000, 300),
                [Component(1, first, 1_000, 1, 0), Component(2, second, 1_000, 1, 0)],
                Rebalance(true, MANAGER, 0, 300, 1_000, 2, 0, 0, 0)),
          [first, second], UNIT_SCALE,
          map[Account(TRADER, ComponentMint(1)) := 2_000 - first, Account(TRADER, ComponentMint(2)) := 2_000 - second,
              Account(TRADER, IndexMint) := UNIT_SCALE], 500)
  }

  lemma LevelPrice(w: World, s: nat, b: nat)
    requires w == LevelFund(1_050, 1_050) || w == LevelFund(1_000, 1_100)
    requires s < 2 && b < 2
    ensures BidPremium(w) == Ok(0)
    ensures BidPayment(w.index.components[s], w.index.components[b], 50, 0) == Ok(50)
    ensures TargetBalance(1_000, UNIT_SCALE) == Ok(1_000) && BuyCap(1_000, 1_000) == Ok(1_100)
  {
    assert Pow10(0) == 1;
    assert CeilDiv(50 * BPS, BPS) == 50;
    assert CeilDiv(50 * 1, 1) == 50;
    assert MulDivCeil(50, BPS, BPS) == Ok(50);
    assert MulDivCeil(50, 1, 1) == Ok(50);
  }

  lemma LevelNav(cs: seq<Component>, balances: seq<uint64>)
    requires |cs| == 2 == |balances| && balances[0] as int + balances[1] == 2_100
    requires forall i :: 0 <= i < 2 ==> cs[i].refPriceE9 == 1 && cs[i].decimals == 0
    ensures NavE6(cs, balances) == Ok(2)
  {
    assert Pow10(0) == 1;
    assert ValueE9(balances[0], 0, 1) == Ok(balances[0]);
    assert ValueE9(balances[1], 0, 1) == Ok(balances[1]);
    assert NavFrom(cs, balances, 1, balances[0]) == NavFrom(cs, balances, 2, 2_100);
  }

  lemma LevelSync(w: World, first: uint64, second: uint64)
    requires first <= 2_000 && second <= 2_000
    requires |w.vaults| == 2 && w.vaults == [first, second] && w.supply == UNIT_SCALE
    requires w.index == LevelFund(first, second).index.(components := w.index.components)
    requires forall i :: 0 <= i < 2 ==>
      w.index.components[i] == LevelFund(first, second).index.components[i].(units := w.index.components[i].units)
    requires w.wallets == LevelFund(first, second).wallets && w.clock == 500
    ensures SyncUnits(w) == Ok(LevelFund(first, second))
  {
    SyncUnitsEffect(w);
    assert first * UNIT_SCALE / UNIT_SCALE == first && second * UNIT_SCALE / UNIT_SCALE == second;
    assert forall i :: 0 <= i < 2 ==> DerivedUnits(w.index.components[i].units, w.vaults[i], w.supply) <= U64_MAX;
    var w' := SyncUnits(w).value;
    assert Resynced(w.index.components[0], w'.index.components[0], first, UNIT_SCALE);
    assert Resynced(w.index.components[1], w'.index.components[1], second, UNIT_SCALE);
    assert w'.index.components == LevelFund(first, second).index.components;
  }

  lemma LevelBids()
    ensures Bid(LevelFund(1_050, 1_050), TRADER, TRADER, 0, 1, 50, 50) == Ok(LevelFund(1_000, 1_100))
    ensures Bid(LevelFund(1_000, 1_100), TRADER, TRADER, 1, 0, 50, 50) == Ok(LevelFund(1_050, 1_050))
  {
    var w, v := LevelFund(1_050, 1_050), LevelFund(1_000, 1_100);
    LevelPrice(w, 0, 1);
    LevelPrice(v, 1, 0);
    assert BidLegs(w, 0, 1, 50, 50, 0) == Ok(50);
    assert BidLegs(v, 1, 0, 50, 50, 0) == Ok(50);
    LevelFill(w, v, 0, 1);
    LevelFill(v, w, 1, 0);
  }

  lemma LevelTransfers(w: World, v: World, s: nat, b: nat) returns (paid: World, filled: World)
    requires s < 2 && b < 2 && s != b
    requires if s == 0 then w == LevelFund(1_050, 1_050) && v == LevelFund(1_000, 1_100)
                       else w == LevelFund(1_000, 1_100) && v == LevelFund(1_050, 1_050)
    ensures |paid.vaults| == |w.vaults| && filled == w.(vaults := v.vaults, wallets := v.wallets)
    ensures TransferFromUser(w, TRADER, b, 50) == Ok(paid) && TransferFromVault(paid, s, TRADER, 50) == Ok(filled)
  {
    paid := TransferFromUser(w, TRADER, b, 50).value;
    filled := TransferFromVault(paid, s, TRADER, 50).value;
    assert filled.vaults == v.vaults;
    assert filled.wallets == v.wallets;
  }

  lemma LevelFill(w: World, v: World, s: nat, b: nat)
    requires s < 2 && b < 2 && s != b
    requires if s == 0 then w == LevelFund(1_050, 1_050) && v == LevelFund(1_000, 1_100)
                       else w == LevelFund(1_000, 1_100) && v == LevelFund(1_050, 1_050)
    ensures FillBid(w, TRADER, TRADER, s, b, 50, 50) == Ok(v)
  {
    var paid, filled := LevelTransfers(w, v, s, b);
    LevelNav(filled.index.components, filled.vaults);
    LevelSync(filled, v.vaults[0], v.vaults[1]);
    FillBidStages(w, TRADER, TRADER, s, b, 50, 50, paid, filled, 2, v);
  }

  /** The level fund is reached from before the index exists. */
  lemma LevelFundIsReachable() returns (worlds: seq<World>, steps: seq<Step>)
    ensures Run(worlds, steps) && Genesis(worlds[0]) && worlds[|steps|] == LevelFund(1_050, 1_050)
    ensures Sound(LevelFund(1_050, 1_050))
  {
    var p := LevelPlan();
    LevelNav(ProposedTable(p), Balances(p));
    worlds, steps := OpenFundIsReachable(p, 2, 2, 500);
    assert OpenFund(p, 2, 500) == LevelFund(1_050, 1_050);
  }

  const THERE: Step := DoBid(TRADER, TRADER, 0, 1, 50, 50)
  const BACK: Step := DoBid(TRADER, TRADER, 1, 0, 50, 50)

  /** With both legs inside their bands, selling the first for the second and the second for the first
      again is accepted both times and leads back to the start. */
  lemma InBandTradesRepeat()
    ensures Sound(LevelFund(1_050, 1_050))
    ensures Bid(LevelFund(1_050, 1_050), TRADER, TRADER, 0, 1, 50, 50) == Ok(LevelFund(1_000, 1_100))
    ensures Bid(LevelFund(1_000, 1_100), TRADER, TRADER, 1, 0, 50, 50) == Ok(LevelFund(1_050, 1_050))
  {
    var worlds, steps := LevelFundIsReachable();
    LevelBids();
  }

  lemma BidStep(w: World, bidder: Key, to: Key, s: uint8, b: uint8, sellAmount: uint64, maxBuyAmount: uint64, w': World)
    requires Bid(w, bidder, to, s, b, sellAmount, maxBuyAmount) == Ok(w')
    ensures Apply(w, DoBid(bidder, to, s, b, sellAmount, maxBuyAmount)) == Ok(w')
  {
  }

  lemma LevelSteps(w: World, v: World)
    requires w == LevelFund(1_050, 1_050) && v == LevelFund(1_000, 1_100)
    ensures Apply(w, THERE) == Ok(v) && Apply(v, BACK) == Ok(w)
  {
    LevelBids();
    BidStep(w, TRADER, TRADER, 0, 1, 50, 50, v);
    BidStep(v, TRADER, TRADER, 1, 0, 50, 50, w);
  }

  /** Step `k` is a bid, and the program accepts it. */
  ghost predicate Accepted(worlds: seq<World>, steps: seq<Step>, k: nat)
    requires k < |steps| && |worlds| == |steps| + 1
  {
    steps[k].DoBid? && Apply(worlds[k], steps[k]) == Ok(worlds[k + 1])
  }

  /** Two accepted bids that lead back to where a run of accepted bids starts go before it. */
  lemma GoAroundFirst(w: World, v: World, there: Step, back: Step, worlds: seq<World>, steps: seq<Step>)
    requires there.DoBid? && back.DoBid? && Apply(w, there) == Ok(v) && Apply(v, back) == Ok(w)
    requires Run(worlds, steps) && worlds[0] == w && forall k :: 0 <= k < |steps| ==> Accepted(worlds, steps, k)
    ensures Run([w, v] + worlds, [there, back] + steps)
    ensures forall k :: 0 <= k < |steps| + 2 ==> Accepted([w, v] + worlds, [there, back] + steps, k)
  {
    var worlds', steps' := [w, v] + worlds, [there, back] + steps;
    forall k | 0 <= k < |steps'| ensures Accepted(worlds', steps', k) && Follows(worlds', steps', k) {
      if k >= 2 {
        assert Accepted(worlds, steps, k - 2);
        assert worlds'[k] == worlds[k - 2] && worlds'[k + 1] == worlds[k - 1] && steps'[k] == steps[k - 2];
      }
    }
  }

  /** So an auction need not run out of bids: from that fund there are runs of any length made of
      accepted bids alone. */
  lemma {:induction false} AuctionsNeedNotEnd(n: nat) returns (worlds: seq<World>, steps: seq<Step>)
    ensures Run(worlds, steps) && worlds[0] == LevelFund(1_050, 1_050) && |steps| == 2 * n
    ensures forall k :: 0 <= k < |steps| ==> Accepted(worlds, steps, k)
  {
    var w, v := LevelFund(1_050, 1_050), LevelFund(1_000, 1_100);
    if n == 0 {
      worlds, steps := [w], [];
    } else {
      worlds, steps := AuctionsNeedNotEnd(n - 1);
      LevelSteps(w, v);
      GoAroundFirst(w, v, THERE, BACK, worlds, steps);
      worlds, steps := [w, v] + worlds, [THERE, BACK] + steps;
    }
  }

  /** The first of these bids takes the leg it buys from 1050 to 1100, away from its target of 1000. */
  lemma PurchaseCanMoveAway(w: World, w': World)
    requires w == LevelFund(1_050, 1_050) && w' == LevelFund(1_000, 1_100)
    ensures Sound(w) && Apply(w, THERE) == Ok(w')
    ensures Gap(w.vaults[1], Target(w, 1)) == 50 && Gap(w'.vaults[1], Target(w, 1)) == 100
  {
    InBandTradesRepeat();
    BidStep(w, TRADER, TRADER, 0, 1, 50, 50, w');
  }

  lemma LevelNavIsTwo(w: World)
    requires w == LevelFund(1_050, 1_050)
    ensures NavE9(w) / 1_000 == 2
  {
    LevelNav(w.index.components, w.vaults);
    NavE6Value(w.index.components, w.vaults);
  }

  /** The same bid at market prices: the proposal declared no loss and the floor covers that, yet if
      the sold token is worth `ratio` times the bought one, holders lose 50 * ratio - 50 in units of the
      bought one, more than any bound. */
  lemma MispricedProposalLosesWithoutLimit(w: World, w': World, ratio: nat)
    requires w == LevelFund(1_050, 1_050) && w' == LevelFund(1_000, 1_100)
    ensures Sound(w) && FloorCoversLoss(w) && w.index.rebalance.maxNavLossBps == 0
    ensures Apply(w, THERE) == Ok(w') && WithinLoss(w, w', 0)
    ensures (w.vaults[0] * ratio + w.vaults[1]) - (w'.vaults[0] * ratio + w'.vaults[1]) == 50 * ratio - 50
  {
    PurchaseCanMoveAway(w, w');
    LevelNavIsTwo(w);
    BidHonoursLossOfNow(w, THERE, w');
  }

  // ---------------------------------------------------------------------------------------------
  // A bid that pays nothing
  // ---------------------------------------------------------------------------------------------

  /** One index token over two legs of nine decimals at a price of one, a millionth of a nanodollar for
      every thousand units. */
  function DustPlan(): Plan {
    Plan(Leg(9, 1_050, 2_000, 1_000, 1), Leg(9, 900, 2_000, 1_000, 1), 1, 1_000, AuctionParams(700, 0, 0, 0))
  }

  function DustFund(): World {
    OpenFund(DustPlan(), 0, 500)
  }

  lemma DustNav(cs: seq<Component>, balances: seq<uint64>)
    requires |cs| == 2 == |balances| && balances[0] <= 2_000 && balances[1] <= 2_000
    requires forall i :: 0 <= i < 2 ==> cs[i].refPriceE9 == 1 && cs[i].decimals == 9
    ensures NavE6(cs, balances) == Ok(0)
  {
    assert Pow10(9) == 1_000_000_000;
    assert ValueE9(balances[0], 9, 1) == Ok(0);
    assert ValueE9(balances[1], 9, 1) == Ok(0);
    assert NavFrom(cs, balances, 1, 0) == NavFrom(cs, balances, 2, 0);
  }

  lemma DustFundIsReachable() returns (worlds: seq<World>, steps: seq<Step>)
    ensures Run(worlds, steps) && Genesis(worlds[0]) && worlds[|steps|] == DustFund() && Sound(DustFund())
  {
    var p := DustPlan();
    DustNav(ProposedTable(p), Balances(p));
    worlds, steps := OpenFundIsReachable(p, 0, 0, 500);
  }

  const DUST: Step := DoBid(TRADER, TRADER, 0, 1, 50, 0)

  lemma DustPrice(w: World)
    requires w == DustFund()
    ensures BidPremium(w) == Ok(0) && BidLegs(w, 0, 1, 50, 0, 0) == Ok(0)
  {
    assert Pow10(9) == 1_000_000_000;
    assert ValueE9(50, 9, 1) == Ok(0);
    CeilAtMost(0, 0, BPS);
    assert MulDivCeil(0, BPS, BPS) == Ok(0);
    CeilAtMost(0, 0, 1);
    assert MulDivCeil(0, 1_000_000_000, 1) == Ok(0);
    assert TargetBalance(1_000, UNIT_SCALE) == Ok(1_000) && BuyCap(1_000, 1_000) == Ok(1_100);
  }

  lemma DustFill(w: World)
    requires w == DustFund()
    ensures FillBid(w, TRADER, TRADER, 0, 1, 50, 0).Ok?
    ensures FillBid(w, TRADER, TRADER, 0, 1, 50, 0).value.vaults == [1_000, 900]
  {
    var filled := TransferFromVault(w, 0, TRADER, 50).value;
    assert filled.vaults == [1_000, 900];
    DustNav(filled.index.components, filled.vaults);
    SyncUnitsEffect(filled);
    assert forall i :: 0 <= i < 2 ==>
      DerivedUnits(filled.index.components[i].units, filled.vaults[i], filled.supply) <= U64_MAX;
  }

  /** A bid can take fifty base units and pay nothing for them; the leg it buys stays 100 short. */
  lemma DustBidPaysNothing()
    ensures Sound(DustFund()) && Apply(DustFund(), DUST).Ok? && Paid(DustFund(), DUST) == 0
    ensures Next(DustFund(), DUST).vaults == [1_000, 900] && DustFund().vaults == [1_050, 900]
  {
    var worlds, steps := DustFundIsReachable();
    DustPrice(DustFund());
    DustFill(DustFund());
    assert Apply(DustFund(), DUST).Ok?;
  }

  // ---------------------------------------------------------------------------------------------
  // A gift to whoever comes first
  // ---------------------------------------------------------------------------------------------

  const DONOR: Key := 8

  /** A sealed fund that nobody has entered: one component, ten units to the token, and a vault to
      which somebody has given five base units. */
  function GiftFund(): World {
    World(Index(Live, GOVERNOR, MANAGER, COLLECTOR, 0, 0, Params(0, 0, 0, 0, 300), [Component(1, 10, 10, 0, 6)],
                NO_REBALANCE),
          [5], 0, map[Account(DONOR, ComponentMint(1)) := 0, Account(TRADER, ComponentMint(1)) := 100], 0)
  }

  /** The same fund after the trader has entered with one token, and after the trader has left. */
  function GiftTaken(vault: uint64, supply: uint64, purse: uint64): World {
    var w := GiftFund();
    w.(index := w.index.(components := [Component(1, 15, 10, 0, 6)]), vaults := [vault], supply := supply,
       wallets := w.wallets[Account(TRADER, ComponentMint(1)) := purse][Account(TRADER, IndexMint) := supply])
  }

  lemma GiftFundIsSound()
    ensures Sound(GiftFund())
  {
    var a, b := Account(DONOR, ComponentMint(1)), Account(TRADER, ComponentMint(1));
    TotalUpdate(map[], a, 0, IndexMint);
    TotalUpdate(map[a := 0], b, 100, IndexMint);
    assert GiftFund().wallets == map[a := 0][b := 100];
  }

  lemma GiftInStep(w: World, w': World)
    requires w == GiftTaken(15, UNIT_SCALE, 90).(index := w.index) && w' == GiftTaken(15, UNIT_SCALE, 90)
    requires w.index == GiftFund().index || w.index == w'.index
    ensures SyncUnits(w) == Ok(w')
  {
    SyncUnitsEffect(w);
    assert 15 * UNIT_SCALE / UNIT_SCALE == 15;
    assert DerivedUnits(w.index.components[0].units, 15, UNIT_SCALE) == 15;
    var synced := SyncUnits(w).value;
    assert Resynced(w.index.components[0], synced.index.components[0], 15, UNIT_SCALE);
    assert synced.index.components == w'.index.components;
  }

  lemma GiftDelivery(w: World, paid: World)
    requires w == GiftFund()
    requires paid == w.(vaults := [15], wallets := w.wallets[Account(TRADER, ComponentMint(1)) := 90])
    ensures DeliverFrom(w, TRADER, [10], UNIT_SCALE, 0) == Ok(paid)
  {
    CeilAtMost(10, 10 * UNIT_SCALE, UNIT_SCALE);
    CeilAbove(9, 10 * UNIT_SCALE, UNIT_SCALE);
    assert UnitsIn(10, UNIT_SCALE) == Ok(10);
    assert TransferFromUser(w, TRADER, 0, 10) == Ok(paid) by {
      assert w.vaults[0 := 15] == [15];
    }
  }

  lemma GiftCharged(w: World, w': World)
    requires w == GiftFund() && w' == GiftTaken(15, UNIT_SCALE, 90)
    ensures IssueCharged(w, TRADER, TRADER, UNIT_SCALE, 0, [10]) == Ok(w')
  {
    var paid := w.(vaults := [15], wallets := w.wallets[Account(TRADER, ComponentMint(1)) := 90]);
    GiftDelivery(w, paid);
    var minted := w'.(index := w.index);
    GiftMint(paid, minted);
    GiftInStep(minted, w');
    IssueChargedByStages(w, TRADER, TRADER, UNIT_SCALE, 0, [10], paid, minted, minted, w');
  }

  lemma GiftSettled(w: World)
    requires w == GiftFund()
    ensures Settled(w) == Ok(w) && FlatFee(UNIT_SCALE, w.index.params.issueFeeBps) == Ok(0)
  {
    assert Accrue(w) == Ok(w) && SyncUnits(w) == Ok(w);
  }

  lemma TakingTheGift(w: World, w': World)
    requires w == GiftFund() && w' == GiftTaken(15, UNIT_SCALE, 90)
    ensures Issue(w, TRADER, TRADER, UNIT_SCALE, [10]) == Ok(w')
  {
    GiftSettled(w);
    GiftCharged(w, w');
    IssueByStages(w, TRADER, TRADER, UNIT_SCALE, [10], w, 0, w');
  }

  lemma GiftMint(paid: World, minted: World)
    requires paid == GiftFund().(vaults := [15], wallets := GiftFund().wallets[Account(TRADER, ComponentMint(1)) := 90])
    requires minted == GiftTaken(15, UNIT_SCALE, 90).(index := paid.index)
    ensures MintIndexTokens(paid, TRADER, UNIT_SCALE) == Ok(minted)
      && MintIndexTokens(minted, COLLECTOR, 0) == Ok(minted)
  {
  }

  lemma LeavingWithTheGift(w: World, w': World)
    requires w == GiftTaken(15, UNIT_SCALE, 90) && w' == GiftTaken(0, 0, 105)
    ensures Redeem(w, TRADER, TRADER, UNIT_SCALE, [10]) == Ok(w')
  {
    assert Accrue(w) == Ok(w) && FlatFee(UNIT_SCALE, 0) == Ok(0);
    GiftInStep(w, w);
    assert 15 * UNIT_SCALE / UNIT_SCALE == 15;
    assert UnitsOut(15, UNIT_SCALE) == Ok(15);
    var burned := BurnIndexTokens(w, TRADER, UNIT_SCALE).value;
    assert MintIndexTokens(burned, COLLECTOR, 0) == Ok(burned);
    var paid := TransferFromVault(burned, 0, TRADER, 15).value;
    assert PayOutFrom(burned, TRADER, [10], UNIT_SCALE, 0) == Ok(paid);
    assert paid.vaults == w'.vaults && paid.wallets == w'.wallets;
  }

  /** The first to enter a fund into whose vault five base units were given leaves with them: a round
      trip at one instant takes the trader's account from 100 to 105. */
  lemma FirstEntryTakesTheGift(w: World, w': World, w'': World)
    requires w == GiftFund() && w' == GiftTaken(15, UNIT_SCALE, 90) && w'' == GiftTaken(0, 0, 105)
    ensures Sound(w)
    ensures Issue(w, TRADER, TRADER, UNIT_SCALE, [10]) == Ok(w')
      && Redeem(w', TRADER, TRADER, UNIT_SCALE, [10]) == Ok(w'')
    ensures Balance(w.wallets, ComponentAccount(w, TRADER, 0)) == 100
    ensures Balance(w''.wallets, ComponentAccount(w, TRADER, 0)) == 105
  {
    GiftFundIsSound();
    TakingTheGift(w, w');
    LeavingWithTheGift(w', w'');
  }

  // ---------------------------------------------------------------------------------------------
  // An entry that thins the exact ratio
  // ---------------------------------------------------------------------------------------------

  /** A fund of one component with two units to the token: `vault` base units behind `supply`. */
  function ThinFund(vault: uint64, supply: uint64, purse: uint64): World {
    World(Index(Live, GOVERNOR, MANAGER, COLLECTOR, 0, 0, Params(0, 0, 0, 0, 300), [Component(1, 2, 2, 0, 6)],
                NO_REBALANCE),
          [vault], supply, map[Account(TRADER, ComponentMint(1)) := purse, Account(TRADER, IndexMint) := supply], 0)
  }

  lemma ThinFundIsSound(w: World)
    requires w == ThinFund(7, 3 * UNIT_SCALE, 100)
    ensures Sound(w)
  {
    var a, b := Account(TRADER, ComponentMint(1)), Account(TRADER, IndexMint);
    TotalUpdate(map[], a, 100, IndexMint);
    TotalUpdate(map[a := 100], b, 3 * UNIT_SCALE, IndexMint);
    assert w.wallets == map[a := 100][b := 3 * UNIT_SCALE];
  }

  lemma ThinInStep(w: World)
    requires w == ThinFund(7, 3 * UNIT_SCALE, 100) || w == ThinFund(13, 6 * UNIT_SCALE, 94)
    ensures SyncUnits(w) == Ok(w)
  {
    assert 7 * UNIT_SCALE / (3 * UNIT_SCALE) == 2 && 13 * UNIT_SCALE / (6 * UNIT_SCALE) == 2;
    assert DerivedUnits(2, w.vaults[0], w.supply) == 2;
    StillInStep(w);
  }

  lemma ThinCharged(w: World, w': World)
    requires w == ThinFund(7, 3 * UNIT_SCALE, 100) && w' == ThinFund(13, 6 * UNIT_SCALE, 94)
    ensures IssueCharged(w, TRADER, TRADER, 3 * UNIT_SCALE, 0, [6]) == Ok(w')
  {
    CeilAtMost(6, 2 * (3 * UNIT_SCALE), UNIT_SCALE);
    CeilAbove(5, 2 * (3 * UNIT_SCALE), UNIT_SCALE);
    assert UnitsIn(2, 3 * UNIT_SCALE) == Ok(6);
    var paid := w.(vaults := [13], wallets := w.wallets[Account(TRADER, ComponentMint(1)) := 94]);
    assert TransferFromUser(w, TRADER, 0, 6) == Ok(paid) by {
      assert w.vaults[0 := 13] == [13];
    }
    assert DeliverFrom(w, TRADER, [6], 3 * UNIT_SCALE, 0) == Ok(paid);
    assert MintIndexTokens(paid, TRADER, 3 * UNIT_SCALE) == Ok(w') by {
      assert paid.wallets[Account(TRADER, IndexMint) := 6 * UNIT_SCALE] == w'.wallets;
    }
    assert MintIndexTokens(w', COLLECTOR, 0) == Ok(w');
    ThinInStep(w');
    IssueChargedByStages(w, TRADER, TRADER, 3 * UNIT_SCALE, 0, [6], paid, w', w', w');
  }

  /** Seven base units behind three tokens: an entry of three more is accepted for six, and thirteen
      behind six is less than seven behind three. */
  lemma EntryThinsTheRatio(w: World, w': World)
    requires w == ThinFund(7, 3 * UNIT_SCALE, 100) && w' == ThinFund(13, 6 * UNIT_SCALE, 94)
    ensures Sound(w) && Issue(w, TRADER, TRADER, 3 * UNIT_SCALE, [6]) == Ok(w')
    ensures w'.vaults[0] * w.supply < w.vaults[0] * w'.supply
  {
    ThinFundIsSound(w);
    assert Accrue(w) == Ok(w);
    ThinInStep(w);
    ThinCharged(w, w');
    IssueByStages(w, TRADER, TRADER, 3 * UNIT_SCALE, [6], w, 0, w');
  }

  // ---------------------------------------------------------------------------------------------
  // A door that does not open
  // ---------------------------------------------------------------------------------------------

  /** A paused fund of which one base unit is left, over a vault of twenty billion: its units have grown
      past their word, though the ones last stored still claim little. */
  function OvergrownFund(): World {
    World(Index(Status.Paused, GOVERNOR, MANAGER, COLLECTOR, 0, 0, Params(0, 0, 0, 0, 300),
                [Component(1, 10, 10, 0, 6)],
                NO_REBALANCE),
          [20_000_000_000], 1, map[Account(TRADER, IndexMint) := 1], 0)
  }

  /** There no redemption goes through, whatever the amount and whatever the bounds, although the fund
      is sound and a holder has all that is left of it. */
  lemma ExitCanBeShut(w: World, to: Key, amount: uint64, minOut: seq<uint64>)
    requires w == OvergrownFund()
    ensures Sound(w) && Balance(w.wallets, Account(TRADER, IndexMint)) == w.supply == 1
    ensures Redeem(w, TRADER, to, amount, minOut).Err?
  {
    TotalUpdate(map[], Account(TRADER, IndexMint), 1, IndexMint);
    assert Accrue(w) == Ok(w);
    SyncUnitsEffect(w);
    assert DerivedUnits(10, 20_000_000_000, 1) == 20_000_000_000 * UNIT_SCALE > U64_MAX;
    assert SyncUnits(w).Err? by {
      assert DerivedUnits(w.index.components[0].units, w.vaults[0], w.supply) > U64_MAX;
    }
  }
}
